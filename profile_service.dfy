/** The profile service of the identity server (Auth.IdentityServer/ProfileService.cs):
    it assembles the claims issued for a subject, and says whether the
    subject's account still exists. */
module ProfileService {
  import opened Wrappers
  import opened Claims
  import opened Datamodel

  /** The exception the claim assembly can raise: reading `c.Type` of a null
      entry of the claim list. */
  datatype Error = NullReference

  /** String.Contains(string): ordinal, case-sensitive substring test. */
  predicate ContainsOrdinal(s: string, part: string)
    decreases |s|
  {
    part <= s || (s != [] && ContainsOrdinal(s[1..], part))
  }

  /** The recursive test finds `part` exactly when it starts at some position
      of `s`, the end of `s` included (where only "" starts). */
  lemma {:induction false} ContainsOrdinalMeaning(s: string, part: string)
    ensures ContainsOrdinal(s, part) <==> exists i :: 0 <= i <= |s| && part <= s[i..]
    decreases |s|
  {
    assert s[0..] == s;
    if s != [] {
      ContainsOrdinalMeaning(s[1..], part);
      if exists i :: 0 <= i <= |s[1..]| && part <= s[1..][i..] {
        var i :| 0 <= i <= |s[1..]| && part <= s[1..][i..];
        assert s[1..][i..] == s[i + 1..];
      }
      if exists i :: 0 <= i <= |s| && part <= s[i..] {
        var i :| 0 <= i <= |s| && part <= s[i..];
        if i > 0 {
          assert s[1..][i - 1..] == s[i..];
        }
      }
    }
  }

  /** The two tests the service applies to a claim type: a substring test
      (for "email") and an exact comparison (for "firstName" and "lastName"). */
  datatype TypeTest = TypeContains(part: string) | TypeEquals(name: string)

  predicate Matches(test: TypeTest, t: string)
  {
    match test
    case TypeContains(part) => ContainsOrdinal(t, part)
    case TypeEquals(name) => t == name
  }

  const EmailTest := TypeContains("email")
  const FirstNameTest := TypeEquals("firstName")
  const LastNameTest := TypeEquals("lastName")

  /** `list.Any(c => test(c.Type))` over a list that may hold null entries:
      the scan runs from the front and stops at the first match, and a null
      entry reached before any match throws. */
  function Any(list: seq<Option<Claim>>, test: TypeTest): Result<bool, Error>
  {
    if list == [] then Success(false)
    else match list[0]
      case None => Failure(NullReference)
      case Some(c) => if Matches(test, c.claimType) then Success(true) else Any(list[1..], test)
  }

  /** What the scan answers: true when a match comes before every null
      entry, false when every entry is a non-null non-match, and otherwise
      (a null entry before any match) it throws. */
  lemma {:induction false} AnyMeaning(list: seq<Option<Claim>>, test: TypeTest)
    ensures Any(list, test) == Success(true) <==>
      exists k :: 0 <= k < |list| && list[k].Some? && Matches(test, list[k].value.claimType) &&
        forall j :: 0 <= j < k ==> list[j].Some?
    ensures Any(list, test) == Success(false) <==>
      forall k :: 0 <= k < |list| ==> list[k].Some? && !Matches(test, list[k].value.claimType)
  {
    if list != [] && list[0].Some? && !Matches(test, list[0].value.claimType) {
      AnyMeaning(list[1..], test);
      if Any(list, test) == Success(true) {
        var k :| 0 <= k < |list[1..]| && list[1..][k].Some? && Matches(test, list[1..][k].value.claimType) &&
          forall j :: 0 <= j < k ==> list[1..][j].Some?;
        assert list[k + 1] == list[1..][k];
        assert forall j :: 0 <= j < k + 1 ==> list[j].Some? by {
          forall j | 0 <= j < k + 1 ensures list[j].Some? {
            if j > 0 { assert list[j] == list[1..][j - 1]; }
          }
        }
      }
      if exists k :: 0 <= k < |list| && list[k].Some? && Matches(test, list[k].value.claimType) &&
          forall j :: 0 <= j < k ==> list[j].Some? {
        var k :| 0 <= k < |list| && list[k].Some? && Matches(test, list[k].value.claimType) &&
          forall j :: 0 <= j < k ==> list[j].Some?;
        assert k > 0;
        assert list[1..][k - 1] == list[k];
        assert forall j :: 0 <= j < k - 1 ==> list[1..][j].Some? by {
          forall j | 0 <= j < k - 1 ensures list[1..][j].Some? {
            assert list[1..][j] == list[j + 1];
          }
        }
      }
      if forall k :: 0 <= k < |list[1..]| ==> list[1..][k].Some? && !Matches(test, list[1..][k].value.claimType) {
        forall k | 0 <= k < |list| ensures list[k].Some? && !Matches(test, list[k].value.claimType) {
          if k > 0 { assert list[k] == list[1..][k - 1]; }
        }
      }
    }
  }

  /** A scan over a concatenation: the second part is reached only when the
      first part is scanned to its end without a match or a null. */
  lemma {:induction false} AnyAppend(a: seq<Option<Claim>>, b: seq<Option<Claim>>, test: TypeTest)
    ensures Any(a + b, test) == if Any(a, test) == Success(false) then Any(b, test) else Any(a, test)
  {
    if a == [] {
      assert a + b == b;
    } else {
      assert (a + b)[0] == a[0];
      assert (a + b)[1..] == a[1..] + b;
      AnyAppend(a[1..], b, test);
    }
  }

  /** Lifts claims into list entries that are never null. */
  function Lift(claims: seq<Claim>): (r: seq<Option<Claim>>)
    ensures |r| == |claims| && forall k :: 0 <= k < |claims| ==> r[k] == Some(claims[k])
  {
    if claims == [] then [] else [Some(claims[0])] + Lift(claims[1..])
  }

  /** Whether some claim's type matches the test, scanning from the front. */
  predicate HasMatch(claims: seq<Claim>, test: TypeTest)
  {
    claims != [] && (Matches(test, claims[0].claimType) || HasMatch(claims[1..], test))
  }

  /** The scan finds a match exactly when some claim's type matches. */
  lemma {:induction false} HasMatchMeaning(claims: seq<Claim>, test: TypeTest)
    ensures HasMatch(claims, test) <==> exists c :: c in claims && Matches(test, c.claimType)
  {
    if claims != [] {
      HasMatchMeaning(claims[1..], test);
      if exists c :: c in claims && Matches(test, c.claimType) {
        var c :| c in claims && Matches(test, c.claimType);
        if c != claims[0] {
          var k :| 0 <= k < |claims| && claims[k] == c;
          assert claims[1..][k - 1] == c;
        }
      }
      if HasMatch(claims[1..], test) {
        var c :| c in claims[1..] && Matches(test, c.claimType);
        assert c in claims;
      }
    }
  }

  /** A scan over claims that holds no null entry never throws, and finds a
      match exactly when there is one. */
  lemma {:induction false} AnyLifted(claims: seq<Claim>, test: TypeTest)
    ensures Any(Lift(claims), test) == Success(HasMatch(claims, test))
  {
    if claims != [] {
      var list := Lift(claims);
      assert list[0] == Some(claims[0]);
      assert list[1..] == Lift(claims[1..]);
      AnyLifted(claims[1..], test);
    }
  }

  /** `Claims.FirstOrDefault(c => c.Type == t)`: the first claim of exactly
      type t, or null. */
  function FirstOfType(claims: seq<Claim>, t: string): (r: Option<Claim>)
    ensures r.None? <==> forall k :: 0 <= k < |claims| ==> claims[k].claimType != t
    ensures r.Some? ==> r.value.claimType == t
    ensures r.Some? ==>
      exists k :: 0 <= k < |claims| && claims[k] == r.value &&
        forall j :: 0 <= j < k ==> claims[j].claimType != t
  {
    if claims == [] then None
    else if claims[0].claimType == t then Some(claims[0])
    else FirstOfType(claims[1..], t)
  }

  /** `claims.Where(claim => requested.Contains(claim.Type))`: the claims whose
      type was requested, in their original order, duplicates kept. */
  function Requested(claims: seq<Claim>, requested: set<string>): (r: seq<Claim>)
    ensures |r| <= |claims|
    ensures forall c :: c in r ==> c in claims && c.claimType in requested
    ensures forall k :: 0 <= k < |claims| && claims[k].claimType in requested ==> claims[k] in r
  {
    if claims == [] then []
    else (if claims[0].claimType in requested then [claims[0]] else []) + Requested(claims[1..], requested)
  }

  /** The filter keeps order: it distributes over concatenation. */
  lemma {:induction false} RequestedAppend(a: seq<Claim>, b: seq<Claim>, requested: set<string>)
    ensures Requested(a + b, requested) == Requested(a, requested) + Requested(b, requested)
  {
    if a == [] {
      assert a + b == b;
    } else {
      assert (a + b)[0] == a[0];
      assert (a + b)[1..] == a[1..] + b;
      RequestedAppend(a[1..], b, requested);
    }
  }

  /** The filter keeps duplicates: a claim of a requested type occurs in the
      result as often as in the input, any other claim not at all. */
  lemma {:induction false} RequestedCount(claims: seq<Claim>, requested: set<string>, c: Claim)
    ensures multiset(Requested(claims, requested))[c] ==
      if c.claimType in requested then multiset(claims)[c] else 0
  {
    if claims != [] {
      assert claims == [claims[0]] + claims[1..];
      RequestedCount(claims[1..], requested, c);
    }
  }

  /** An empty request keeps nothing: there is no "empty means all" rule. */
  lemma RequestedNothing(claims: seq<Claim>)
    ensures Requested(claims, {}) == []
  {
  }

  /** The three mandatory slots, each with whether its scan found no claim
      (so the slot is appended) and the entry it appends: the subject's
      first claim of the slot's type, or null. */
  datatype Slots = Slots(addEmail: bool, email: Option<Claim>,
                         addFirst: bool, first: Option<Claim>,
                         addLast: bool, last: Option<Claim>)

  /** Each slot's entry, when not null, has the slot's type. */
  predicate WellTyped(s: Slots)
  {
    (s.email.Some? ==> s.email.value.claimType == "email") &&
    (s.first.Some? ==> s.first.value.claimType == "firstName") &&
    (s.last.Some? ==> s.last.value.claimType == "lastName")
  }

  /** The list entry appended for a slot, if its scan found nothing. */
  function Slot(append: bool, entry: Option<Claim>): seq<Option<Claim>>
  {
    if append then [entry] else []
  }

  /** Appends the slots in the order email, firstName, lastName to `base`.
      The firstName scan throws when it reaches a null email slot; the
      lastName scan throws when it reaches a null email or firstName slot. */
  function AppendSlots(base: seq<Option<Claim>>, s: Slots): Result<seq<Option<Claim>>, Error>
  {
    if s.addFirst && s.addEmail && s.email.None? then Failure(NullReference)
    else if s.addLast && ((s.addEmail && s.email.None?) || (s.addFirst && s.first.None?)) then Failure(NullReference)
    else Success(base + Slot(s.addEmail, s.email) + Slot(s.addFirst, s.first) + Slot(s.addLast, s.last))
  }

  /** The slots for a subject whose kept (requested) claims are `kept`: a
      slot is appended when no kept claim passes its test. */
  function MandatorySlots(subject: seq<Claim>, kept: seq<Claim>): (s: Slots)
    ensures WellTyped(s)
  {
    Slots(!HasMatch(kept, EmailTest), FirstOfType(subject, "email"),
          !HasMatch(kept, FirstNameTest), FirstOfType(subject, "firstName"),
          !HasMatch(kept, LastNameTest), FirstOfType(subject, "lastName"))
  }

  /** The requested claims followed by the userId claim. */
  function IssuedBase(sub: string, kept: seq<Claim>): seq<Option<Claim>>
  {
    Lift(kept) + [Some(Claim("userId", sub))]
  }

  /** The claims issued for subject `sub` whose claims are `subject`, when
      the relying party requested the claim types `requested`.
      The requested claims come first, then a `userId` claim for `sub`; then,
      each only if no claim so far passes its test, the first subject claim
      of type `email`, `firstName` and `lastName`, or null when the subject has
      none. A later scan that reaches such a null throws. */
  function IssuedClaims(sub: string, subject: seq<Claim>, requested: set<string>): Result<seq<Option<Claim>>, Error>
  {
    var kept := Requested(subject, requested);
    AppendSlots(IssuedBase(sub, kept), MandatorySlots(subject, kept))
  }

  /** Appending keeps the base list as a prefix and adds at most three entries. */
  lemma AppendKeepsBase(base: seq<Option<Claim>>, s: Slots)
    ensures AppendSlots(base, s).Success? ==>
      var r := AppendSlots(base, s).value;
      |base| <= |r| <= |base| + 3 && r[..|base|] == base &&
      r[|base|..] == Slot(s.addEmail, s.email) + Slot(s.addFirst, s.first) + Slot(s.addLast, s.last)
  {
    if AppendSlots(base, s).Success? {
      var r := AppendSlots(base, s).value;
      assert r == base + (Slot(s.addEmail, s.email) + Slot(s.addFirst, s.first) + Slot(s.addLast, s.last));
    }
  }

  /** The email slot comes right after the base list when appended; otherwise
      no appended entry is an email claim. */
  lemma AppendEmail(base: seq<Option<Claim>>, s: Slots)
    requires WellTyped(s)
    ensures AppendSlots(base, s).Success? ==>
      var r := AppendSlots(base, s).value;
      if s.addEmail then |base| < |r| && r[|base|] == s.email
      else
        r[|base|..] == Slot(s.addFirst, s.first) + Slot(s.addLast, s.last) &&
        forall i :: |base| <= i < |r| ==> r[i].None? || r[i].value.claimType != "email"
  {
    if AppendSlots(base, s).Success? {
      var r := AppendSlots(base, s).value;
      var tail := Slot(s.addEmail, s.email) + Slot(s.addFirst, s.first) + Slot(s.addLast, s.last);
      assert r == base + tail;
      assert r[|base|..] == tail;
      forall i | |base| <= i < |r| ensures r[i] == tail[i - |base|] { }
    }
  }

  /** The firstName slot comes after the base list and the email slot when
      appended; otherwise no appended entry is a firstName claim. */
  lemma AppendFirstName(base: seq<Option<Claim>>, s: Slots)
    requires WellTyped(s)
    ensures AppendSlots(base, s).Success? ==>
      var r := AppendSlots(base, s).value;
      var at := |base| + if s.addEmail then 1 else 0;
      if s.addFirst then at < |r| && r[at] == s.first
      else forall i :: |base| <= i < |r| ==> r[i].None? || r[i].value.claimType != "firstName"
  {
    if AppendSlots(base, s).Success? {
      var r := AppendSlots(base, s).value;
      var tail := Slot(s.addEmail, s.email) + Slot(s.addFirst, s.first) + Slot(s.addLast, s.last);
      assert r == base + tail;
      forall i | |base| <= i < |r| ensures r[i] == tail[i - |base|] { }
    }
  }

  /** The lastName slot is the last entry when appended; otherwise no
      appended entry is a lastName claim. */
  lemma AppendLastName(base: seq<Option<Claim>>, s: Slots)
    requires WellTyped(s)
    ensures AppendSlots(base, s).Success? ==>
      var r := AppendSlots(base, s).value;
      if s.addLast then |base| < |r| && r[|r| - 1] == s.last
      else forall i :: |base| <= i < |r| ==> r[i].None? || r[i].value.claimType != "lastName"
  {
    if AppendSlots(base, s).Success? {
      var r := AppendSlots(base, s).value;
      var tail := Slot(s.addEmail, s.email) + Slot(s.addFirst, s.first) + Slot(s.addLast, s.last);
      assert r == base + tail;
      forall i | |base| <= i < |r| ensures r[i] == tail[i - |base|] { }
    }
  }

  /** Over a base list without null entries, slots without null entries
      are appended without a throw, and no entry is null. */
  lemma AppendWithoutNull(base: seq<Option<Claim>>, s: Slots)
    requires forall i :: 0 <= i < |base| ==> base[i].Some?
    requires s.email.Some? && s.first.Some? && s.last.Some?
    ensures AppendSlots(base, s).Success?
    ensures forall i :: 0 <= i < |AppendSlots(base, s).value| ==> AppendSlots(base, s).value[i].Some?
  {
    var r := AppendSlots(base, s).value;
    var tail := Slot(s.addEmail, s.email) + Slot(s.addFirst, s.first) + Slot(s.addLast, s.last);
    assert r == base + tail;
    forall i | 0 <= i < |r| ensures r[i].Some? {
      if i >= |base| {
        assert r[i] == tail[i - |base|];
      }
    }
  }

  /** Over a base list without null entries, a successful append holds a
      null entry at most in the last place. */
  lemma AppendNullOnlyLast(base: seq<Option<Claim>>, s: Slots)
    requires forall i :: 0 <= i < |base| ==> base[i].Some?
    ensures AppendSlots(base, s).Success? ==>
      var r := AppendSlots(base, s).value;
      forall i :: 0 <= i < |r| - 1 ==> r[i].Some?
  {
    if AppendSlots(base, s).Success? {
      var r := AppendSlots(base, s).value;
      var tail := Slot(s.addEmail, s.email) + Slot(s.addFirst, s.first) + Slot(s.addLast, s.last);
      assert r == base + tail;
      forall i | 0 <= i < |r| - 1 ensures r[i].Some? {
        if i >= |base| {
          assert r[i] == tail[i - |base|];
        }
      }
    }
  }

  /** The type "userId" contains no "email", so the userId claim never
      suppresses the email slot. */
  lemma UserIdIsNotEmailLike()
    ensures !Matches(EmailTest, "userId")
  {
    if ContainsOrdinal("userId", "email") {
      CharOfPartOccurs("userId", "email", 1);
    }
  }

  /** Every character of a contained string occurs in the containing one. */
  lemma {:induction false} CharOfPartOccurs(s: string, part: string, k: nat)
    requires ContainsOrdinal(s, part)
    requires k < |part|
    ensures part[k] in s
  {
    if part <= s {
      assert s[k] == part[k];
    } else {
      CharOfPartOccurs(s[1..], part, k);
      var j :| 0 <= j < |s[1..]| && s[1..][j] == part[k];
      assert s[j + 1] == part[k];
    }
  }

  /** The scan over the kept claims and the userId claim, for a test the
      type "userId" fails: it never throws and finds a kept claim's match. */
  lemma BaseScan(kept: seq<Claim>, sub: string, test: TypeTest)
    requires !Matches(test, "userId")
    ensures Any(Lift(kept) + [Some(Claim("userId", sub))], test) == Success(HasMatch(kept, test))
  {
    var id := [Some(Claim("userId", sub))];
    AnyAppend(Lift(kept), id, test);
    AnyLifted(kept, test);
    assert id[1..] == [];
  }

  /** The firstName scan, after the email slot: a kept firstName claim is
      found before the slot; otherwise a null email slot throws. */
  lemma SecondScan(base: seq<Option<Claim>>, kept: seq<Claim>, addEmail: bool, email: Option<Claim>)
    requires Any(base, FirstNameTest) == Success(HasMatch(kept, FirstNameTest))
    requires email.Some? ==> email.value.claimType == "email"
    ensures Any(base + Slot(addEmail, email), FirstNameTest) ==
      if HasMatch(kept, FirstNameTest) then Success(true)
      else if addEmail && email.None? then Failure(NullReference)
      else Success(false)
  {
    AnyAppend(base, Slot(addEmail, email), FirstNameTest);
  }

  /** The lastName scan, after the email and firstName slots: a kept
      lastName claim is found before them; otherwise a null slot throws. */
  lemma ThirdScan(base: seq<Option<Claim>>, kept: seq<Claim>, addEmail: bool, email: Option<Claim>,
                  addFirst: bool, first: Option<Claim>)
    requires Any(base, LastNameTest) == Success(HasMatch(kept, LastNameTest))
    requires email.Some? ==> email.value.claimType == "email"
    requires first.Some? ==> first.value.claimType == "firstName"
    ensures Any(base + Slot(addEmail, email) + Slot(addFirst, first), LastNameTest) ==
      if HasMatch(kept, LastNameTest) then Success(true)
      else if (addEmail && email.None?) || (addFirst && first.None?) then Failure(NullReference)
      else Success(false)
  {
    assert base + Slot(addEmail, email) + Slot(addFirst, first) ==
      base + (Slot(addEmail, email) + Slot(addFirst, first));
    AnyAppend(base, Slot(addEmail, email) + Slot(addFirst, first), LastNameTest);
    AnyAppend(Slot(addEmail, email), Slot(addFirst, first), LastNameTest);
  }

  /** The issued list starts with the requested claims, in order, then the
      userId claim; after it come exactly the appended slots, one entry for
      each of email, firstName and lastName that no requested claim
      matched, and nothing else. */
  lemma IssuedPrefix(sub: string, subject: seq<Claim>, requested: set<string>)
    ensures var kept := Requested(subject, requested);
      IssuedClaims(sub, subject, requested).Success? ==>
        var r := IssuedClaims(sub, subject, requested).value;
        r[..|kept|] == Lift(kept) && r[|kept|] == Some(Claim("userId", sub)) &&
        |r| == |kept| + 1 + (if HasMatch(kept, EmailTest) then 0 else 1)
          + (if HasMatch(kept, FirstNameTest) then 0 else 1) + (if HasMatch(kept, LastNameTest) then 0 else 1) &&
        r[|kept| + 1..] == Slot(!HasMatch(kept, EmailTest), FirstOfType(subject, "email"))
          + Slot(!HasMatch(kept, FirstNameTest), FirstOfType(subject, "firstName"))
          + Slot(!HasMatch(kept, LastNameTest), FirstOfType(subject, "lastName"))
  {
    var kept := Requested(subject, requested);
    assert IssuedClaims(sub, subject, requested) == AppendSlots(IssuedBase(sub, kept), MandatorySlots(subject, kept));
    IssuedPrefixAfter(sub, subject, kept);
  }

  /** IssuedPrefix, over the filtered claims `kept`. */
  lemma IssuedPrefixAfter(sub: string, subject: seq<Claim>, kept: seq<Claim>)
    ensures var s := MandatorySlots(subject, kept);
      AppendSlots(IssuedBase(sub, kept), s).Success? ==>
        var r := AppendSlots(IssuedBase(sub, kept), s).value;
        r[..|kept|] == Lift(kept) && r[|kept|] == Some(Claim("userId", sub)) &&
        |r| == |kept| + 1 + |Slot(s.addEmail, s.email)| + |Slot(s.addFirst, s.first)| + |Slot(s.addLast, s.last)| &&
        r[|kept| + 1..] == Slot(s.addEmail, s.email) + Slot(s.addFirst, s.first) + Slot(s.addLast, s.last)
  {
    var base := IssuedBase(sub, kept);
    var s := MandatorySlots(subject, kept);
    AppendKeepsBase(base, s);
    if AppendSlots(base, s).Success? {
      var r := AppendSlots(base, s).value;
      assert r[..|kept|] == r[..|base|][..|kept|];
      assert r[|kept|] == r[..|base|][|kept|];
      assert r == r[..|base|] + r[|base|..];
    }
  }

  /** The email slot follows the userId claim exactly when no requested claim
      has a type containing "email"; it holds the subject's first claim of
      type "email", or null. Otherwise only the name slots follow the userId
      claim, so no email claim and no null email slot is appended. */
  lemma EmailSlot(sub: string, subject: seq<Claim>, requested: set<string>)
    ensures var kept := Requested(subject, requested);
      IssuedClaims(sub, subject, requested).Success? && !HasMatch(kept, EmailTest) ==>
        var r := IssuedClaims(sub, subject, requested).value;
        |kept| + 1 < |r| && r[|kept| + 1] == FirstOfType(subject, "email")
    ensures var kept := Requested(subject, requested);
      IssuedClaims(sub, subject, requested).Success? && HasMatch(kept, EmailTest) ==>
        var r := IssuedClaims(sub, subject, requested).value;
        r[|kept| + 1..] == NameSlots(subject, kept) &&
        forall i :: |kept| < i < |r| ==> r[i].None? || r[i].value.claimType != "email"
  {
    var kept := Requested(subject, requested);
    var issued := AppendSlots(IssuedBase(sub, kept), MandatorySlots(subject, kept));
    assert IssuedClaims(sub, subject, requested) == issued;
    EmailSlotAfter(sub, subject, kept);
  }

  /** The entries the firstName and lastName slots append, in that order. */
  function NameSlots(subject: seq<Claim>, kept: seq<Claim>): seq<Option<Claim>>
  {
    Slot(!HasMatch(kept, FirstNameTest), FirstOfType(subject, "firstName")) +
    Slot(!HasMatch(kept, LastNameTest), FirstOfType(subject, "lastName"))
  }

  /** EmailSlot, for any list `kept` of retained claims. */
  lemma EmailSlotAfter(sub: string, subject: seq<Claim>, kept: seq<Claim>)
    ensures var issued := AppendSlots(IssuedBase(sub, kept), MandatorySlots(subject, kept));
      issued.Success? ==>
        var r := issued.value;
        if !HasMatch(kept, EmailTest) then
          |kept| + 1 < |r| && r[|kept| + 1] == FirstOfType(subject, "email")
        else
          r[|kept| + 1..] == NameSlots(subject, kept) &&
          forall i :: |kept| < i < |r| ==> r[i].None? || r[i].value.claimType != "email"
  {
    var base := IssuedBase(sub, kept);
    assert |base| == |kept| + 1;
    AppendEmail(base, MandatorySlots(subject, kept));
  }

  /** The firstName slot is appended exactly when no requested claim has type
      "firstName", after the email slot if that was appended; it holds the
      subject's first claim of that type, or null. Otherwise no entry after
      the userId claim is a firstName claim. */
  lemma FirstNameSlot(sub: string, subject: seq<Claim>, requested: set<string>)
    ensures var kept := Requested(subject, requested);
      IssuedClaims(sub, subject, requested).Success? ==>
        var r := IssuedClaims(sub, subject, requested).value;
        var at := |kept| + if HasMatch(kept, EmailTest) then 1 else 2;
        if !HasMatch(kept, FirstNameTest) then
          at < |r| && r[at] == FirstOfType(subject, "firstName")
        else
          forall i :: |kept| < i < |r| ==> r[i].None? || r[i].value.claimType != "firstName"
  {
    var kept := Requested(subject, requested);
    var base, slots := IssuedBase(sub, kept), MandatorySlots(subject, kept);
    assert |base| == |kept| + 1;
    assert IssuedClaims(sub, subject, requested) == AppendSlots(base, slots);
    AppendFirstName(base, slots);
  }

  /** The lastName slot is appended, last of all, exactly when no requested
      claim has type "lastName"; it holds the subject's first claim of that
      type, or null. Otherwise no entry after the userId claim is a lastName
      claim. */
  lemma LastNameSlot(sub: string, subject: seq<Claim>, requested: set<string>)
    ensures var kept := Requested(subject, requested);
      IssuedClaims(sub, subject, requested).Success? ==>
        var r := IssuedClaims(sub, subject, requested).value;
        if !HasMatch(kept, LastNameTest) then
          |kept| + 1 < |r| && r[|r| - 1] == FirstOfType(subject, "lastName")
        else
          forall i :: |kept| < i < |r| ==> r[i].None? || r[i].value.claimType != "lastName"
  {
    var kept := Requested(subject, requested);
    var base, slots := IssuedBase(sub, kept), MandatorySlots(subject, kept);
    assert |base| == |kept| + 1;
    assert IssuedClaims(sub, subject, requested) == AppendSlots(base, slots);
    AppendLastName(base, slots);
  }

  /** When the call succeeds, a null entry can only be the last one: every
      earlier null would have been reached by a later scan. */
  lemma NullOnlyLast(sub: string, subject: seq<Claim>, requested: set<string>)
    ensures IssuedClaims(sub, subject, requested).Success? ==>
      var r := IssuedClaims(sub, subject, requested).value;
      forall i :: 0 <= i < |r| - 1 ==> r[i].Some?
  {
    var kept := Requested(subject, requested);
    AppendNullOnlyLast(IssuedBase(sub, kept), MandatorySlots(subject, kept));
  }

  /** A subject without an email claim, when no requested claim has a type
      containing "email", makes the call throw unless both a firstName and a
      lastName claim were requested and present. */
  lemma MissingEmailFails(sub: string, subject: seq<Claim>, requested: set<string>)
    requires FirstOfType(subject, "email").None?
    requires !HasMatch(Requested(subject, requested), EmailTest)
    ensures var kept := Requested(subject, requested);
      IssuedClaims(sub, subject, requested).Failure? <==>
        !(HasMatch(kept, FirstNameTest) && HasMatch(kept, LastNameTest))
  {
  }

  /** A subject that holds a firstName and a lastName claim makes the call
      throw only through a missing email claim, when no requested claim has
      a type containing "email" and not both names were requested. */
  lemma NamedSubjectFailsOnlyOnEmail(sub: string, subject: seq<Claim>, requested: set<string>)
    requires FirstOfType(subject, "firstName").Some?
    requires FirstOfType(subject, "lastName").Some?
    ensures var kept := Requested(subject, requested);
      IssuedClaims(sub, subject, requested).Failure? <==>
        FirstOfType(subject, "email").None? && !HasMatch(kept, EmailTest) &&
        !(HasMatch(kept, FirstNameTest) && HasMatch(kept, LastNameTest))
  {
  }

  /** A subject with email, firstName and lastName claims never makes the
      call throw, and then no issued entry is null. */
  lemma CompleteSubjectSucceeds(sub: string, subject: seq<Claim>, requested: set<string>)
    requires FirstOfType(subject, "email").Some?
    requires FirstOfType(subject, "firstName").Some?
    requires FirstOfType(subject, "lastName").Some?
    ensures IssuedClaims(sub, subject, requested).Success?
    ensures forall i :: 0 <= i < |IssuedClaims(sub, subject, requested).value| ==>
      IssuedClaims(sub, subject, requested).value[i].Some?
  {
    var kept := Requested(subject, requested);
    var issued := AppendSlots(IssuedBase(sub, kept), MandatorySlots(subject, kept));
    assert IssuedClaims(sub, subject, requested) == issued;
    CompleteSlotsSucceed(sub, subject, kept);
  }

  /** CompleteSubjectSucceeds, for any list `kept` of retained claims. */
  lemma CompleteSlotsSucceed(sub: string, subject: seq<Claim>, kept: seq<Claim>)
    requires FirstOfType(subject, "email").Some?
    requires FirstOfType(subject, "firstName").Some?
    requires FirstOfType(subject, "lastName").Some?
    ensures var issued := AppendSlots(IssuedBase(sub, kept), MandatorySlots(subject, kept));
      issued.Success? && forall i :: 0 <= i < |issued.value| ==> issued.value[i].Some?
  {
    var base := IssuedBase(sub, kept);
    assert forall i :: 0 <= i < |base| ==> base[i].Some? by {
      forall i | 0 <= i < |base| ensures base[i].Some? {
        if i < |kept| { assert base[i] == Lift(kept)[i]; }
      }
    }
    AppendWithoutNull(base, MandatorySlots(subject, kept));
  }

  /** The call throws exactly when a scan reaches a null slot before a match:
      the null email slot is scanned by a later firstName or lastName scan
      unless both names were kept, and a null firstName slot by the lastName
      scan unless a lastName claim was kept. A null lastName slot is scanned
      by nothing. */
  lemma FailureIff(sub: string, subject: seq<Claim>, requested: set<string>)
    ensures var kept := Requested(subject, requested);
      IssuedClaims(sub, subject, requested).Failure? <==>
        (!HasMatch(kept, EmailTest) && FirstOfType(subject, "email").None? &&
         !(HasMatch(kept, FirstNameTest) && HasMatch(kept, LastNameTest))) ||
        (FirstOfType(subject, "firstName").None? && !HasMatch(kept, LastNameTest))
  {
    var kept := Requested(subject, requested);
    KeptFirstNameIsPresent(subject, requested);
    assert IssuedClaims(sub, subject, requested) == AppendSlots(IssuedBase(sub, kept), MandatorySlots(subject, kept));
  }

  /** A kept firstName claim is a firstName claim of the subject. */
  lemma KeptFirstNameIsPresent(subject: seq<Claim>, requested: set<string>)
    ensures HasMatch(Requested(subject, requested), FirstNameTest) ==> FirstOfType(subject, "firstName").Some?
  {
    var kept := Requested(subject, requested);
    HasMatchMeaning(kept, FirstNameTest);
    if HasMatch(kept, FirstNameTest) {
      var c :| c in kept && Matches(FirstNameTest, c.claimType);
      var k :| 0 <= k < |subject| && subject[k] == c;
      assert subject[k].claimType == "firstName";
    }
  }

  /** A subject with an email and a firstName claim never makes the call
      throw, whatever was requested and whether or not it has a lastName
      claim: a null lastName slot is appended last. */
  lemma EmailAndFirstNameSucceed(sub: string, subject: seq<Claim>, requested: set<string>)
    requires FirstOfType(subject, "email").Some?
    requires FirstOfType(subject, "firstName").Some?
    ensures IssuedClaims(sub, subject, requested).Success?
  {
    FailureIff(sub, subject, requested);
  }

  /** An empty request keeps none of the subject's claims, so all three
      slots are appended after the userId claim; the call throws exactly
      when the email or the firstName slot is null. */
  lemma NothingRequested(sub: string, subject: seq<Claim>)
    ensures var email, first, last :=
        FirstOfType(subject, "email"), FirstOfType(subject, "firstName"), FirstOfType(subject, "lastName");
      IssuedClaims(sub, subject, {}) ==
        if email.None? || first.None? then Failure(NullReference)
        else Success([Some(Claim("userId", sub)), email, first, last])
  {
    RequestedNothing(subject);
    var base := [Some(Claim("userId", sub))];
    assert Lift([]) == [];
    assert IssuedBase(sub, []) == base;
    var s := MandatorySlots(subject, []);
    assert s.addEmail && s.addFirst && s.addLast;
    assert IssuedClaims(sub, subject, {}) == AppendSlots(base, s);
    assert s.email == FirstOfType(subject, "email") && s.first == FirstOfType(subject, "firstName");
    assert s.last == FirstOfType(subject, "lastName");
    if s.email.Some? && s.first.Some? {
      assert AppendSlots(base, s) == Success(base + Slot(true, s.email) + Slot(true, s.first) + Slot(true, s.last));
      assert base + Slot(true, s.email) + Slot(true, s.first) + Slot(true, s.last) == [base[0], s.email, s.first, s.last];
    }
  }

  /** A requested userId claim for the same subject is kept, and the
      userId claim is still appended: it then occurs twice. */
  lemma UserIdCanAppearTwice(sub: string, subject: seq<Claim>, requested: set<string>)
    requires Claim("userId", sub) in subject && "userId" in requested
    ensures IssuedClaims(sub, subject, requested).Success? ==>
      var r := IssuedClaims(sub, subject, requested).value;
      exists i, j :: 0 <= i < j < |r| && r[i] == r[j] == Some(Claim("userId", sub))
  {
    var kept := Requested(subject, requested);
    IssuedPrefix(sub, subject, requested);
    if IssuedClaims(sub, subject, requested).Success? {
      var r := IssuedClaims(sub, subject, requested).value;
      var k :| 0 <= k < |subject| && subject[k] == Claim("userId", sub);
      assert Claim("userId", sub) in kept;
      var i :| 0 <= i < |kept| && kept[i] == Claim("userId", sub);
      assert r[i] == r[..|kept|][i] == Lift(kept)[i];
      assert r[i] == r[|kept|];
    }
  }

  /** A requested claim whose type merely contains "email", such as
      "email_verified", suppresses the email slot: the result is the one the
      assembly gives without an email slot. Only the name slots follow the
      userId claim, and the call throws only when a null firstName slot is
      followed by a lastName scan, even if the subject has no email claim. */
  lemma EmailLikeTypeSuppressesEmail(sub: string, subject: seq<Claim>, requested: set<string>, c: Claim)
    requires c in subject && c.claimType in requested && ContainsOrdinal(c.claimType, "email")
    ensures var kept := Requested(subject, requested);
      IssuedClaims(sub, subject, requested) ==
        AppendSlots(IssuedBase(sub, kept), MandatorySlots(subject, kept).(addEmail := false))
    ensures var kept := Requested(subject, requested);
      IssuedClaims(sub, subject, requested).Failure? <==>
        !HasMatch(kept, FirstNameTest) && !HasMatch(kept, LastNameTest) && FirstOfType(subject, "firstName").None?
    ensures var kept := Requested(subject, requested);
      IssuedClaims(sub, subject, requested).Success? ==>
        IssuedClaims(sub, subject, requested).value[|kept| + 1..] == NameSlots(subject, kept)
  {
    var kept := Requested(subject, requested);
    RequestedEmailLikeIsKept(subject, requested, c);
    assert IssuedClaims(sub, subject, requested) == AppendSlots(IssuedBase(sub, kept), MandatorySlots(subject, kept));
    EmailSuppressedAfter(sub, subject, kept);
  }

  /** A subject claim of a requested, email-like type is kept by the filter. */
  lemma RequestedEmailLikeIsKept(subject: seq<Claim>, requested: set<string>, c: Claim)
    requires c in subject && c.claimType in requested && ContainsOrdinal(c.claimType, "email")
    ensures HasMatch(Requested(subject, requested), EmailTest)
  {
    var kept := Requested(subject, requested);
    var k :| 0 <= k < |subject| && subject[k] == c;
    assert c in kept;
    HasMatchMeaning(kept, EmailTest);
  }

  /** EmailLikeTypeSuppressesEmail, for any list `kept` of retained claims
      with an email-like type among them. */
  lemma EmailSuppressedAfter(sub: string, subject: seq<Claim>, kept: seq<Claim>)
    requires HasMatch(kept, EmailTest)
    ensures var slots := MandatorySlots(subject, kept);
      slots == slots.(addEmail := false)
    ensures var issued := AppendSlots(IssuedBase(sub, kept), MandatorySlots(subject, kept));
      issued.Failure? <==>
        !HasMatch(kept, FirstNameTest) && !HasMatch(kept, LastNameTest) && FirstOfType(subject, "firstName").None?
    ensures var issued := AppendSlots(IssuedBase(sub, kept), MandatorySlots(subject, kept));
      issued.Success? ==> issued.value[|kept| + 1..] == NameSlots(subject, kept)
  {
    EmailSlotAfter(sub, subject, kept);
  }

  /** "email_verified" is such a type. */
  lemma EmailVerifiedIsEmailLike()
    ensures ContainsOrdinal("email_verified", "email")
  {
    assert "email" <= "email_verified";
  }

  /** A subject with email and firstName but no lastName claim, asked for
      "email" only: the firstName claim is appended and then a null for the
      missing lastName, and the call succeeds. */
  lemma MissingLastNameAppendsNull()
    ensures var subject := [Claim("email", "a@x.com"), Claim("firstName", "Jane")];
      IssuedClaims("42", subject, {"email"}) ==
        Success([Some(Claim("email", "a@x.com")), Some(Claim("userId", "42")),
                 Some(Claim("firstName", "Jane")), None])
  {
    var subject := [Claim("email", "a@x.com"), Claim("firstName", "Jane")];
    var kept := [Claim("email", "a@x.com")];
    var slots := Slots(false, Some(Claim("email", "a@x.com")), true, Some(Claim("firstName", "Jane")), true, None);
    MissingLastNamePieces();
    var base := [Some(Claim("email", "a@x.com")), Some(Claim("userId", "42"))];
    assert IssuedBase("42", kept) == base;
    assert IssuedClaims("42", subject, {"email"}) == AppendSlots(base, slots);
    assert base + [] + [slots.first] + [slots.last] ==
      [Some(Claim("email", "a@x.com")), Some(Claim("userId", "42")), Some(Claim("firstName", "Jane")), None];
  }

  /** The kept claims and the slots of the example above. */
  lemma MissingLastNamePieces()
    ensures var subject := [Claim("email", "a@x.com"), Claim("firstName", "Jane")];
      Requested(subject, {"email"}) == [Claim("email", "a@x.com")] &&
      MandatorySlots(subject, [Claim("email", "a@x.com")]) ==
        Slots(false, Some(Claim("email", "a@x.com")), true, Some(Claim("firstName", "Jane")), true, None)
  {
    var kept := [Claim("email", "a@x.com")];
    assert HasMatch(kept, EmailTest) by { assert "email" <= "email"; }
    assert kept[1..] == [];
  }

  /** The context of a profile-data request: the subject's id and claims,
      the requested claim types, and the claims to issue (an output). */
  class ProfileDataRequestContext {
    const subjectId: string
    const subjectClaims: seq<Claim>
    const requestedClaimTypes: set<string>
    var issuedClaims: seq<Option<Claim>>

    constructor (subjectId: string, subjectClaims: seq<Claim>, requestedClaimTypes: set<string>)
      ensures this.subjectId == subjectId && this.subjectClaims == subjectClaims
      ensures this.requestedClaimTypes == requestedClaimTypes && issuedClaims == []
    {
      this.subjectId := subjectId;
      this.subjectClaims := subjectClaims;
      this.requestedClaimTypes := requestedClaimTypes;
      issuedClaims := [];
    }
  }

  /** The context of an is-active request: the subject's id, and the answer
      (an output). */
  class IsActiveContext {
    const subjectId: string
    var isActive: bool

    constructor (subjectId: string)
      ensures this.subjectId == subjectId && isActive
    {
      this.subjectId := subjectId;
      isActive := true;
    }
  }

  /** The user directory behind `UserManager.FindByIdAsync`: users by id. */
  function FindById(users: map<string, ApplicationUser>, id: string): (r: Option<ApplicationUser>)
  {
    if id in users then Some(users[id]) else None
  }

  class ProfileService {
    const users: map<string, ApplicationUser>

    constructor (users: map<string, ApplicationUser>)
      ensures this.users == users
    {
      this.users := users;
    }

    /** GetProfileDataAsync. On success the context receives the issued
        claims; when a scan throws, the context is left as it was. */
    method GetProfileData(context: ProfileDataRequestContext) returns (outcome: Outcome<Error>)
      modifies context`issuedClaims
      ensures var r := IssuedClaims(context.subjectId, context.subjectClaims, context.requestedClaimTypes);
        match r
        case Success(issued) => outcome == Pass && context.issuedClaims == issued
        case Failure(e) => outcome == Fail(e) && context.issuedClaims == old(context.issuedClaims)
    {
      var sub := context.subjectId;
      var userEmailClaim := FirstOfType(context.subjectClaims, "email");
      var firstName := FirstOfType(context.subjectClaims, "firstName");
      var lastName := FirstOfType(context.subjectClaims, "lastName");

      var kept := Requested(context.subjectClaims, context.requestedClaimTypes);
      var claims := Lift(kept);
      claims := claims + [Some(Claim("userId", sub))];
      ghost var base := claims;
      ghost var slots := MandatorySlots(context.subjectClaims, kept);
      assert base == IssuedBase(sub, kept);
      assert IssuedClaims(sub, context.subjectClaims, context.requestedClaimTypes) == AppendSlots(base, slots);

      UserIdIsNotEmailLike();
      BaseScan(kept, sub, EmailTest);
      var hasEmail := Any(claims, EmailTest).value;
      if !hasEmail {
        claims := claims + [userEmailClaim];
      }
      assert claims == base + Slot(!hasEmail, userEmailClaim);

      BaseScan(kept, sub, FirstNameTest);
      SecondScan(base, kept, !hasEmail, userEmailClaim);
      var hasFirst := Any(claims, FirstNameTest);
      if hasFirst.Failure? {
        assert AppendSlots(base, slots) == Failure(NullReference);
        return Fail(hasFirst.error);
      }
      if !hasFirst.value {
        claims := claims + [firstName];
      }
      assert claims == base + Slot(!hasEmail, userEmailClaim) + Slot(!hasFirst.value, firstName);

      BaseScan(kept, sub, LastNameTest);
      ThirdScan(base, kept, !hasEmail, userEmailClaim, !hasFirst.value, firstName);
      var hasLast := Any(claims, LastNameTest);
      if hasLast.Failure? {
        assert AppendSlots(base, slots) == Failure(NullReference);
        return Fail(hasLast.error);
      }
      if !hasLast.value {
        claims := claims + [lastName];
      }

      assert claims == base + Slot(slots.addEmail, slots.email) + Slot(slots.addFirst, slots.first)
        + Slot(slots.addLast, slots.last);
      assert AppendSlots(base, slots) == Success(claims);
      context.issuedClaims := claims;
      return Pass;
    }

    /** IsActiveAsync: the subject is active exactly when the directory
        holds a user with its id. */
    method IsActive(context: IsActiveContext)
      modifies context`isActive
      ensures context.isActive <==> context.subjectId in users
    {
      var user := FindById(users, context.subjectId);
      context.isActive := user.Some?;
    }
  }
}
