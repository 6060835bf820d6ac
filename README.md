# Identity server claims and client registration, modelled in Dafny

This project models the hand-written logic of an identity server built on
IdentityServer4 and ASP.NET Core Identity. There are four parts:

- **Profile service** (`profile_service.dfy`, module `ProfileService`).
  `GetProfileDataAsync` assembles the claims issued for a subject:
  - the subject's claims whose type was requested, in their original order;
  - then a `userId` claim;
  - then up to three mandatory slots (`email`, `firstName`, `lastName`).

  Each slot holds the subject's first claim of that type, which may be null.
  `IsActiveAsync` says whether the subject's account still exists.
- **Principal factory** (`principal_factory.dfy`, module `PrincipalFactory`).
  `GenerateClaimsAsync` appends a `firstName` claim and a `lastName` claim
  to the identity the membership library builds. A null name becomes `""`.
- **Client configuration** (`config.dfy`, module `Config`). This covers:
  - the identity resources and the API scope;
  - the SPA client template;
  - `GetClients`, which adds every configured SPA URL to the client's CORS
    origins, and the URL followed by `/oidc-callback` to its redirect URIs.
- **Registration confirmation** (`confirm_registration.dfy`, module
  `ConfirmRegistration`). This is the validity that the `[Required]`,
  `[StringLength]` and `[Compare]` attributes declare on the
  confirmation form.

Shared modules:

- `Wrappers` has `Option`, `Result` and `Outcome`. A C# `null` is `None`. An
  exception is a `Failure` or `Fail` value.
- `Claims` has the `Claim` value and a count of claims by type.
- `Datamodel` (`datamodel.dfy`) has `ApplicationUser`.
- `SignIn` (`sign_in.dfy`) links the factory's output to the profile
  service's input.

The profile service is modelled twice:

- `ProfileService.IssuedClaims` is a closed-form definition of the result.
- `ProfileService.ProfileService.GetProfileData` repeats the source's steps:
  filter, append `userId`, then three `Any` scans, each followed by an
  append when the scan finds no match. It is proved equal to that definition.

`Any` is modelled as `Enumerable.Any` over a list that may hold null
entries. The scan stops at the first match. A null entry reached before any
match throws `NullReferenceException`, because the predicate reads
`c.Type`. The scan cannot fail unless an earlier slot appended a null.

## Sharp edges of the claim assembly

- An empty requested set keeps no claim. There is no "empty means all"
  rule: the filter asks `RequestedClaimTypes.Contains` of every claim
  (`ProfileService.NothingRequested`, `ProfileService.RequestedNothing`).
- A missing source claim is appended as null, not skipped: the slot holds
  what `FirstOrDefault` returns.
  - A later `Any` scan throws on that null unless a kept claim of the scanned
    type comes before it. `ProfileService.FailureIff` gives this failure
    condition for every input; `ProfileService.MissingEmailFails` is the
    case of a missing email claim.
  - A null `lastName` slot never throws, because no scan follows it: a
    subject with an email and a firstName claim always succeeds
    (`ProfileService.EmailAndFirstNameSucceed`), and on success only the
    last entry can be null (`ProfileService.NullOnlyLast`).
  - For subject `[email, firstName Jane]` with `{"email"}` requested, the
    result is `[email, userId 42, firstName Jane, null]`
    (`ProfileService.MissingLastNameAppendsNull`).
- The email slot is tested by substring, the name slots by exact type. A kept
  claim whose type only *contains* `"email"`, such as `email_verified`,
  suppresses the email slot. Then no null email slot is appended, even when
  the subject has no email claim (`ProfileService.EmailLikeTypeSuppressesEmail`).
- `userId` can occur twice. The synthetic `userId` claim is appended
  unconditionally, after a requested `userId` claim if the subject has one
  (`ProfileService.UserIdCanAppearTwice`).

## Model

| member | source | states |
|---|---|---|
| ProfileService.ContainsOrdinal | Auth.IdentityServer/ProfileService.cs:39 | `String.Contains(string)`, ordinal and case-sensitive, as a recursive test over the suffixes of the type |
| ProfileService.ContainsOrdinalMeaning | Auth.IdentityServer/ProfileService.cs:39 | the test holds exactly when `part` is a prefix of `s` from some position, the end of `s` included |
| ProfileService.Any | Auth.IdentityServer/ProfileService.cs:39-45 | `Enumerable.Any` of the three scans, over a list that may hold nulls; its meaning is `AnyMeaning` |
| ProfileService.HasMatchMeaning | Auth.IdentityServer/ProfileService.cs:39-45 | the match scan over claims finds a match exactly when some claim's type passes the test |
| ProfileService.IssuedClaims | Auth.IdentityServer/ProfileService.cs:25-48 | the closed form of the assembly: filtered claims, `userId`, then the three slots, or the exception a scan throws; what it holds is stated by the lemmas below |
| ProfileService.FindById | Auth.IdentityServer/ProfileService.cs:56-57 | `FindByIdAsync` over the user directory: the user with the id, or null |
| ProfileService.AnyMeaning | Auth.IdentityServer/ProfileService.cs:39-46 | `Any` answers true exactly when some entry matches before the first null; false exactly when all entries are non-null and none matches; otherwise it throws |
| ProfileService.AnyAppend | Auth.IdentityServer/ProfileService.cs:39-46 | scanning `a + b` scans `b` only when `a` gave false; a true or a throw in `a` decides the result |
| ProfileService.AnyLifted | Auth.IdentityServer/ProfileService.cs:39 | over claims with no null among them, `Any` never throws and answers whether some claim's type matches |
| ProfileService.FirstOfType | Auth.IdentityServer/ProfileService.cs:29-32 | `FirstOrDefault` by exact type: null exactly when no claim has the type; otherwise a claim of that type with no earlier claim of that type |
| ProfileService.Requested | Auth.IdentityServer/ProfileService.cs:34-36 | the filter keeps only subject claims of a requested type, and keeps every such claim |
| ProfileService.RequestedAppend | Auth.IdentityServer/ProfileService.cs:36 | the filter preserves order: filtering a concatenation concatenates the filtered parts |
| ProfileService.RequestedCount | Auth.IdentityServer/ProfileService.cs:36 | duplicates are kept: each requested-type claim occurs as often as in the subject, any other claim not at all |
| ProfileService.RequestedNothing | Auth.IdentityServer/ProfileService.cs:36 | an empty requested set keeps no claim |
| ProfileService.IssuedPrefix | Auth.IdentityServer/ProfileService.cs:34-38 | a successful result starts with the filtered claims, then `userId` with the subject id, then exactly one slot for each of email, firstName and lastName that no filtered claim matched, and nothing more |
| ProfileService.EmailSlot | Auth.IdentityServer/ProfileService.cs:39-40 | the email slot follows `userId` exactly when no kept claim's type contains "email", and it holds the subject's first email claim or null; otherwise only the firstName and lastName slots follow `userId` |
| ProfileService.FirstNameSlot | Auth.IdentityServer/ProfileService.cs:43-44 | the firstName slot is appended, after the email slot if any, exactly when no kept claim has type "firstName", and it holds the first such subject claim or null |
| ProfileService.LastNameSlot | Auth.IdentityServer/ProfileService.cs:45-46 | the lastName slot is last, appended exactly when no kept claim has type "lastName", and it holds the first such subject claim or null |
| ProfileService.NullOnlyLast | Auth.IdentityServer/ProfileService.cs:39-46 | on success only the last entry can be null |
| ProfileService.FailureIff | Auth.IdentityServer/ProfileService.cs:36-46 | the call throws exactly when the email slot is null and appended while not both names were kept, or the firstName slot is null while no lastName claim was kept |
| ProfileService.EmailAndFirstNameSucceed | Auth.IdentityServer/ProfileService.cs:39-46 | a subject with an email and a firstName claim never makes the call throw, whatever was requested and whether or not a lastName claim exists |
| ProfileService.MissingEmailFails | Auth.IdentityServer/ProfileService.cs:29-46 | with no email claim and no kept email-like claim, the call throws exactly when firstName and lastName were not both kept |
| ProfileService.NamedSubjectFailsOnlyOnEmail | Auth.IdentityServer/ProfileService.cs:29-46 | for a subject with both name claims, the call throws exactly when the email slot gets a null and a later scan reaches it |
| ProfileService.CompleteSubjectSucceeds | Auth.IdentityServer/ProfileService.cs:29-46 | a subject with email, firstName and lastName claims never makes the call throw, and no issued entry is null |
| ProfileService.NothingRequested | Auth.IdentityServer/ProfileService.cs:34-46 | with nothing requested, the result is `userId` followed by all three slots, and the call throws exactly when the email or the firstName slot is null |
| ProfileService.UserIdCanAppearTwice | Auth.IdentityServer/ProfileService.cs:36-38 | a requested `userId` claim equal to the synthetic one makes that claim appear twice |
| ProfileService.EmailLikeTypeSuppressesEmail | Auth.IdentityServer/ProfileService.cs:39-40 | a kept claim whose type contains "email" gives the result of the assembly without an email slot: only the name slots follow `userId`, and the call throws exactly when neither name was kept and the subject has no firstName claim |
| ProfileService.EmailVerifiedIsEmailLike | Auth.IdentityServer/ProfileService.cs:39 | the type "email_verified" contains "email" under the ordinal test |
| ProfileService.MissingLastNameAppendsNull | Auth.IdentityServer/ProfileService.cs:29-46 | subject `[email, firstName Jane]` with `{"email"}` requested yields `[email, userId, firstName Jane, null]` |
| ProfileService.ProfileService.GetProfileData | Auth.IdentityServer/ProfileService.cs:25-49 | the step-by-step assembly issues exactly `IssuedClaims`, or reports the exception and leaves the context's issued claims unchanged |
| ProfileService.ProfileService.IsActive | Auth.IdentityServer/ProfileService.cs:53-58 | the subject is active exactly when the user directory holds its id |
| PrincipalFactory.OrEmpty | Auth.IdentityServer/MyUserClaimsPrincipalFactory.cs:24-25 | `name ?? ""`: a null name becomes the empty string |
| PrincipalFactory.EnrichedClaims | Auth.IdentityServer/MyUserClaimsPrincipalFactory.cs:23-25 | the claims of the generated identity; its properties are the lemmas below |
| PrincipalFactory.ClaimsIdentity.AddClaim | Auth.IdentityServer/MyUserClaimsPrincipalFactory.cs:24-25 | adding a claim appends it after the identity's existing claims |
| PrincipalFactory.GenerateClaims | Auth.IdentityServer/MyUserClaimsPrincipalFactory.cs:21-28 | a new identity holds the base claims followed by firstName and lastName claims |
| PrincipalFactory.EnrichedKeepsBase | Auth.IdentityServer/MyUserClaimsPrincipalFactory.cs:23-25 | the base claims stay unchanged in front, followed by exactly a firstName and a lastName claim |
| PrincipalFactory.EnrichedNameValues | Auth.IdentityServer/MyUserClaimsPrincipalFactory.cs:24-25 | the name claims carry the user's names, or `""` for a null name |
| PrincipalFactory.EnrichedTypeCounts | Auth.IdentityServer/MyUserClaimsPrincipalFactory.cs:24-26 | no deduplication and no email claim: firstName and lastName occur once more than in the base claims, and every other type equally often |
| PrincipalFactory.EnrichedHasNames | Auth.IdentityServer/MyUserClaimsPrincipalFactory.cs:24-25 | the enriched claims always hold a firstName and a lastName claim |
| PrincipalFactory.EnrichedExample | Auth.IdentityServer/MyUserClaimsPrincipalFactory.cs:24-25 | a null first name and last name "Doe" over no base claims give `[firstName "", lastName "Doe"]` |
| SignIn.EnrichedSubjectFailsOnlyOnEmail | Auth.IdentityServer/ProfileService.cs:29-46 | for a subject built by the factory, the profile call throws exactly when the email slot gets a null and a later scan reaches it |
| Config.IdentityResources | Auth.IdentityServer/Config.cs:15-20 | the OpenId and Profile identity resources, by scope name |
| Config.ApiScopes | Auth.IdentityServer/Config.cs:22-26 | the single API scope `Auth.oscgre.api` with its display name |
| Config.CorsOrigins | Auth.IdentityServer/Config.cs:59-61 | the CORS origins the merge adds: the set of configured URLs |
| Config.CallbackUris | Auth.IdentityServer/Config.cs:59-63 | the redirect URIs the merge adds: each configured URL followed by `/oidc-callback` |
| Config.AllowedScopesAreDeclared | Auth.IdentityServer/Config.cs:15-50 | every scope the SPA client may request is a declared identity resource or API scope |
| Config.Client.constructor | Auth.IdentityServer/Config.cs:31-52 | a client takes the given settings, with empty redirect URIs and CORS origins |
| Config.Clients | Auth.IdentityServer/Config.cs:28-53 | every access yields a one-element list holding a new client with the SPA template's settings and empty URI collections |
| Config.GetClients | Auth.IdentityServer/Config.cs:55-67 | the new client keeps the template's settings; its CORS origins are exactly the configured URLs, and its redirect URIs exactly each URL followed by `/oidc-callback` |
| Config.CallbackUriIffConfigured | Auth.IdentityServer/Config.cs:59-64 | a URL's redirect URI is registered exactly when the URL is configured |
| Config.CallbackUrisMatchOrigins | Auth.IdentityServer/Config.cs:59-64 | there are as many redirect URIs as distinct CORS origins |
| Config.RepeatedCallsDoNotAccumulate | Auth.IdentityServer/Config.cs:28-58 | two calls build two distinct clients, each holding only its own call's URLs |
| ConfirmRegistration.IsWhiteSpace | Auth.IdentityServer/Models/ConfirmRegistrationModel.cs:11-18 | `char.IsWhiteSpace`, the white space `[Required]` ignores |
| ConfirmRegistration.RequiredHolds | Auth.IdentityServer/Models/ConfirmRegistrationModel.cs:11-18 | `[Required]`: not null and not empty or white space only |
| ConfirmRegistration.StringLengthHolds | Auth.IdentityServer/Models/ConfirmRegistrationModel.cs:19 | `[StringLength]`: null passes; a string passes when its length lies in [min, max] |
| ConfirmRegistration.CompareHolds | Auth.IdentityServer/Models/ConfirmRegistrationModel.cs:26 | `[Compare]`: equal to the other property's value, two nulls being equal |
| ConfirmRegistration.Violations | Auth.IdentityServer/Models/ConfirmRegistrationModel.cs:11-27 | the violations the five fields' attributes report |
| ConfirmRegistration.IsValid | Auth.IdentityServer/Models/ConfirmRegistrationModel.cs:11-27 | the form is valid when no attribute reports a violation; `ValidIff` states it field by field |
| ConfirmRegistration.AllWhiteSpaceMeaning | Auth.IdentityServer/Models/ConfirmRegistrationModel.cs:11-18 | the white-space scan behind `[Required]` accepts exactly strings made only of white-space characters |
| ConfirmRegistration.ViolationsMeaning | Auth.IdentityServer/Models/ConfirmRegistrationModel.cs:11-26 | each violation is reported exactly when its attribute's condition fails: a null or blank required field, a non-null password outside [6, 100], a confirmation different from the password |
| ConfirmRegistration.ValidIff | Auth.IdentityServer/Models/ConfirmRegistrationModel.cs:11-27 | the form is valid exactly when the four required fields are not blank, the password is 6 to 100 long, and the confirmation equals it |
| ConfirmRegistration.ValidPasswordBounds | Auth.IdentityServer/Models/ConfirmRegistrationModel.cs:18-26 | a valid form has a password of 6 to 100 characters with a non-white-space character, and the same confirmation |
| ConfirmRegistration.ConfirmPasswordOnlyCompared | Auth.IdentityServer/Models/ConfirmRegistrationModel.cs:24-27 | ConfirmPassword is not required: changing it changes only the mismatch violation, which holds exactly when it differs from the password |
| ConfirmRegistration.WhiteSpacePasswordIsMissing | Auth.IdentityServer/Models/ConfirmRegistrationModel.cs:18-19 | a white-space-only password is reported missing, and the form is invalid even when the length check passes |
| ConfirmRegistration.NullPasswordOnlyMissing | Auth.IdentityServer/Models/ConfirmRegistrationModel.cs:18-26 | a null password is reported missing but passes the length check; a null confirmation matches it |

## Left out

- Auth.IdentityServer/Startup.cs is not part of this model. It holds service
  registration, the database context, the middleware pipeline and the
  signing credential.
- Its password and lockout options configure library validators whose code
  is not present, so they are not modelled.
- Asynchrony: every `Task`-returning method is modelled as a synchronous
  method.
- Library calls are inputs:
  - `GetSubjectId()` becomes the context's `subjectId`. Its exception when
    the subject has no `sub` claim is not modelled.
  - `UserManager.FindByIdAsync` becomes a map from id to user. A store
    failure is not modelled.
  - `base.GenerateClaimsAsync` becomes the `baseClaims` parameter.
- ProfileService.ProfileService.IsActive: a failing directory lookup is
  not modelled, so its contract covers only the lookup itself.
- Null collections are not modelled: a null subject claim list, a null
  `RequestedClaimTypes`, a null `SPAUrls`, and null URLs inside it.
- A `Claim` is its type and value. The issuer, value type and properties are
  not modelled. Claims are compared as values, not as .NET object
  references.
- The other properties of `ProfileDataRequestContext` and `Client` are not
  modelled: the caller, the client, the validated request, and the library
  defaults of a client.
- The claim types that the library's standard identity resources carry are
  not modelled. An identity resource is its scope name.
- `Config.GetClients`: the redirect URIs and CORS origins are sets, as the
  library's hash sets are. Their enumeration order is not modelled.
- `ConfirmRegistration.StringLengthHolds` counts Unicode scalar values.
  .NET counts UTF-16 code units, so a password with characters outside the
  Basic Multilingual Plane can measure differently.
- `ConfirmRegistration.Violations` evaluates every attribute. The
  stand-alone `Validator` skips a property's other attributes once
  `[Required]` fails on it. Validity is the same in both cases; only the
  reported set can differ.
- Model binding (an empty form value bound as null), error message texts, and
  the `DataType` and `Display` attributes are not modelled. They add no
  validity constraint.
- Commented-out code is not modelled: the phone-number claim in
  `Auth.IdentityServer/ProfileService.cs` and the email claim in
  `Auth.IdentityServer/MyUserClaimsPrincipalFactory.cs`.
