# Policy-based authorization and cookie scheme derivation, in Dafny

This project models two pieces of the ASP.NET security repository.

The first is the evaluation loop of `DefaultAuthorizationService`
(module `Authorization`, file `authorization.dfy`). A call builds one
`AuthorizationContext` from the policy, the user and the resources. It runs
every global handler in list order, then every requirement of the policy in
declared order, and answers `false` at the first check that says no. The
by-name entry point resolves the name through the options first. An unknown
name answers `false` without running any check. The service is a class whose
`handlers` and `options` are fixed by its constructor. `Authorize` holds the
two `foreach` loops and their early returns. `AuthorizeByName` resolves the
name and hands the resolved policy to `Authorize`. A ghost trace records each check that ran: its collection, its
position and the context it received. Both methods are proved equal to a
reference function, `Evaluate`, built on `ScanFrom`, the functional reading
of one loop. The properties the service promises are proved as lemmas about
`Evaluate`: the decision is a conjunction, the loops short-circuit, the order
is fixed, every check gets the same context, and the null-collection cases
behave as the code says.

The second is the scheme derivation of `UseCookieAuthentication` in the
cookie compatibility shim (module `CookieCompatibility`, file
`cookie_compatibility.dfy`). When shareable tickets are asked for and no scheme
is given, the scheme is the options' `AuthenticationType` with one trailing
`.AuthType` cut off. The suffix test is ordinal and ignores case. A small
method over a `CookieAuthenticationOptions` object shows that the ticket
format is replaced only when shareable tickets are asked for.

C# `null` is `Option.None` (module `Wrappers`). Each handler or requirement is
an object of class `Check` whose answer on a context is an arbitrary function
`verdict`. C# overloads `AuthorizeAsync`; here the policy-object overload is
`Authorize` and the policy-name overload is `AuthorizeByName`.

## Model

| member | source | states |
|---|---|---|
| `Authorization.DefaultAuthorizationService.constructor` | src/Microsoft.AspNet.Security/DefaultAuthorizationService.cs:17-28 | a null handler collection gives an empty handler list; otherwise the handlers are kept in their given order; the options are stored |
| `Authorization.DefaultAuthorizationService.Authorize` | src/Microsoft.AspNet.Security/DefaultAuthorizationService.cs:40-64 | the answer and the checks run equal the reference evaluation on the context built from (policy, user, resources); the answer is true iff every handler and every requirement says yes; the checks run are a prefix of handlers-then-requirements |
| `Authorization.DefaultAuthorizationService.AuthorizeByName` | src/Microsoft.AspNet.Security/DefaultAuthorizationService.cs:30-38 | an unresolved policy name answers false and runs no check; a resolved name gives exactly the answer and checks of the by-object call on the resolved policy |
| `Authorization.ScanFrom` | src/Microsoft.AspNet.Security/DefaultAuthorizationService.cs:45-51 | definition of one `foreach` loop with its early return (the same shape serves the requirement loop at :55-61); its contract: the checks run are a prefix of the remaining ones, in order and on the call's context; a yes means all of them ran; a no comes from the check at the last position run; its other properties are ScanFromFacts and ScanFromFirstFailure |
| `Authorization.Evaluate` | src/Microsoft.AspNet.Security/DefaultAuthorizationService.cs:42-63 | definition of the by-object evaluation: handlers first, then the requirements when the collection is non-null; its contract: the checks run are a prefix of (all handlers, then all requirements) on the one context, so each runs at most once; a denial ran at least one check, and the last check run said no; its other properties are EvaluateAllowedIff, EvaluateAllPass, HandlerShortCircuit, RequirementShortCircuit, EvaluateTraceOrdered, EmptyRequirementsAllow and NoHandlersOnlyRequirements |
| `Authorization.ScanFromFacts` | src/Microsoft.AspNet.Security/DefaultAuthorizationService.cs:45-61 | one loop answers yes iff every remaining check says yes, then runs all of them; in every case it runs a prefix of the remaining checks, in order |
| `Authorization.ScanFromFirstFailure` | src/Microsoft.AspNet.Security/DefaultAuthorizationService.cs:45-61 | when check k is the first remaining one to say no, one loop answers no after running exactly the checks up to and including k |
| `Authorization.EvaluateAllowedIff` | src/Microsoft.AspNet.Security/DefaultAuthorizationService.cs:42-63 | the decision is true iff every global handler and every requirement of the policy says yes on the context |
| `Authorization.EvaluateAllPass` | src/Microsoft.AspNet.Security/DefaultAuthorizationService.cs:44-63 | when every check says yes, the decision is true and every handler then every requirement ran, once each, in order |
| `Authorization.HandlerShortCircuit` | src/Microsoft.AspNet.Security/DefaultAuthorizationService.cs:45-51 | if handler k is the first to say no, the decision is false, exactly handlers 0..k ran (k+1 of them), and no requirement ran |
| `Authorization.RequirementShortCircuit` | src/Microsoft.AspNet.Security/DefaultAuthorizationService.cs:53-61 | if every handler says yes and requirement k is the first to say no, the decision is false, every handler ran, and exactly requirements 0..k ran |
| `Authorization.EvaluateTraceOrdered` | src/Microsoft.AspNet.Security/DefaultAuthorizationService.cs:43-61 | the checks run are a prefix of (handlers in list order) followed by (requirements in declared order), all receiving the same context; a requirement runs only after every handler said yes |
| `Authorization.EmptyRequirementsAllow` | src/Microsoft.AspNet.Security/DefaultAuthorizationService.cs:53-63 | with a null or empty requirement collection, passing every handler gives true after running exactly the handlers |
| `Authorization.NoHandlersOnlyRequirements` | src/Microsoft.AspNet.Security/DefaultAuthorizationService.cs:44-63 | with no global handlers, the decision is true iff every requirement says yes, and only requirements run, in declared order |
| `CookieCompatibility.EndsWithAuthType` | src/Microsoft.AspNet.Authentication.Cookies.Compatibility/CookieAppBuilderExtensions.cs:31 | definition of the suffix test; its contract: it holds iff the type is non-null, at least nine characters long, and its last nine characters upper-case to ".AUTHTYPE" (a null type gives false) |
| `CookieCompatibility.DeriveScheme` | src/Microsoft.AspNet.Authentication.Cookies.Compatibility/CookieAppBuilderExtensions.cs:31-38 | definition of the derivation; its contract: a null type gives a null scheme, otherwise the scheme is a prefix of the type, and when it differs from the type it is nine characters shorter; its other properties are DeriveSchemeStrips, DeriveSchemeKeeps, DeriveSchemeOfSuffixed, StripsOnce and SuffixTestExamples |
| `CookieCompatibility.ResolveScheme` | src/Microsoft.AspNet.Authentication.Cookies.Compatibility/CookieAppBuilderExtensions.cs:29-39 | definition of the scheme choice; its contract: a given scheme is kept, otherwise the scheme is null iff the type is null and is a prefix of the type; see also ExplicitSchemeKept |
| `CookieCompatibility.EqualsIgnoreCaseIffUpperEqual` | src/Microsoft.AspNet.Authentication.Cookies.Compatibility/CookieAppBuilderExtensions.cs:31 | the ordinal case-insensitive comparison holds iff the two strings are equal after upper-casing |
| `CookieCompatibility.ExplicitSchemeKept` | src/Microsoft.AspNet.Authentication.Cookies.Compatibility/CookieAppBuilderExtensions.cs:29 | a non-null scheme argument is used unchanged, whatever the authentication type |
| `CookieCompatibility.NullTypeDerivesNull` | src/Microsoft.AspNet.Authentication.Cookies.Compatibility/CookieAppBuilderExtensions.cs:31-37 | a null authentication type does not fail and derives a null scheme |
| `CookieCompatibility.DeriveSchemeStrips` | src/Microsoft.AspNet.Authentication.Cookies.Compatibility/CookieAppBuilderExtensions.cs:31-33 | with the suffix present, the derived scheme is the type minus its last 9 characters: a prefix of the type that, followed by the cut-off suffix, gives the type back |
| `CookieCompatibility.DeriveSchemeKeeps` | src/Microsoft.AspNet.Authentication.Cookies.Compatibility/CookieAppBuilderExtensions.cs:35-38 | without the suffix, the derived scheme is the type verbatim |
| `CookieCompatibility.DeriveSchemeOfSuffixed` | src/Microsoft.AspNet.Authentication.Cookies.Compatibility/CookieAppBuilderExtensions.cs:31-33 | appending ".AuthType" in any letter case to a stem and deriving gives the stem back |
| `CookieCompatibility.StripsOnce` | src/Microsoft.AspNet.Authentication.Cookies.Compatibility/CookieAppBuilderExtensions.cs:33 | only one occurrence of the suffix is removed: "X.AuthType.AuthType" gives "X.AuthType" |
| `CookieCompatibility.SuffixTestExamples` | src/Microsoft.AspNet.Authentication.Cookies.Compatibility/CookieAppBuilderExtensions.cs:31-38 | the suffix test ignores letter case ("Cookies.authTYPE" gives "Cookies") but needs all nine characters: "Cookies.AuthTyp", "CookiesAuthType" and "AuthType" are kept verbatim |
| `CookieCompatibility.UseCookieAuthentication` | src/Microsoft.AspNet.Authentication.Cookies.Compatibility/CookieAppBuilderExtensions.cs:24-46 | without shareable tickets the options' ticket format is left unchanged; with them it becomes the ASP.NET 5 format bound to the given scheme, or to the derived one when none is given; nothing else in the options changes |

## Left out

- Task and async machinery: each awaited check is a call that completes before the next one starts.
- What a handler or requirement checks: its answer is an arbitrary function of the context. Side effects of a check, and exceptions it throws, are not modelled. The service does not catch exceptions, so a throwing check would propagate.
- Claims internals, resource contents and the internals of `AuthorizationOptions.GetPolicy`, which is a partial map from names to policies here. `IOptions<AuthorizationOptions>` is collapsed to the options value it wraps.
- Null references that make the service itself throw: a null element in the handler collection (the call at DefaultAuthorizationService.cs:47), a null element in `policy.Requirements` (:57), a null `options` argument to the constructor (:27), and a null `options.Options`, which lets the constructor succeed but makes every by-name call throw at :32. The model's `seq<Check>` elements and its `AuthorizationOptions` value are never null, so these paths are excluded, and `AuthorizeByName` always returns.
- A null `resources` array is not distinguished from an empty one: the service only stores it in the context.
- There is no "policy not found" reason and no distinct fault outcome: the service returns a bare boolean, and an unknown name gives the same `false` as a failed check.
- Repeated calls giving identical results holds by construction: the reference evaluation is a function and checks are side-effect free here.
- UseCookieAuthentication: the `app` builder, the pipeline `stage`, the data protector built from the scheme (`CreateDataProtector`, `WrappingDataProtector`, `RunWithSuppressedPrimaryPurpose`) and the final middleware registration are calls into code not part of this model. The new ticket format records only the scheme it was built for.
- Strings are sequences of Unicode scalar values, while C# strings are UTF-16 code units, so a string with a lone surrogate cannot be represented. Cutting the last nine characters gives the same result on every string the model can represent, because the suffix `.AuthType` is ASCII.
- EqualsIgnoreCaseIffUpperEqual: case-insensitive comparison folds ASCII letters only. Non-ASCII characters compare by exact code point, so invariant upper-casing of non-ASCII letters is not modelled. The suffix `.AuthType` is ASCII.
