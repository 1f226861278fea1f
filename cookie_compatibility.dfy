/**
 * The authentication-scheme derivation of `UseCookieAuthentication` in the
 * cookie compatibility shim.
 *
 * When shareable tickets are asked for and no scheme is given, the scheme is
 * the options' `AuthenticationType` with one trailing ".AuthType" (compared
 * ordinally, ignoring case) cut off. Case-insensitive comparison is modelled
 * by upper-casing ASCII letters only.
 */
module CookieCompatibility {
  import opened Wrappers

  /** The suffix that marks an authentication type derived from a scheme. */
  const AuthTypeSuffix: string := ".AuthType"

  /** Upper-case mapping of ASCII letters; every other character maps to itself. */
  function ToUpperAscii(c: char): (u: char) {
    if 'a' <= c <= 'z' then (c as int - 32) as char else c
  }

  /** Ordinal, case-insensitive equality of two strings. */
  predicate EqualsIgnoreCase(a: string, b: string) {
    |a| == |b| && forall i :: 0 <= i < |a| ==> ToUpperAscii(a[i]) == ToUpperAscii(b[i])
  }

  /** `s.EndsWith(suffix, StringComparison.OrdinalIgnoreCase)`. */
  predicate EndsWithIgnoreCase(s: string, suffix: string) {
    |suffix| <= |s| && EqualsIgnoreCase(s[|s| - |suffix|..], suffix)
  }

  /** `(authenticationType?.EndsWith(".AuthType", OrdinalIgnoreCase)).GetValueOrDefault()`:
      a null type does not end with anything. */
  function EndsWithAuthType(authenticationType: Option<string>): (ends: bool)
    ensures ends <==>
      authenticationType.Some? && |AuthTypeSuffix| <= |authenticationType.value| &&
      UpperAscii(authenticationType.value[|authenticationType.value| - |AuthTypeSuffix|..]) == ".AUTHTYPE"
  {
    match authenticationType
    case None => false
    case Some(t) =>
      if |AuthTypeSuffix| <= |t| then
        EqualsIgnoreCaseIffUpperEqual(t[|t| - |AuthTypeSuffix|..], AuthTypeSuffix);
        EndsWithIgnoreCase(t, AuthTypeSuffix)
      else
        false
  }

  /** The scheme derived from an authentication type when none was given: null for a null
      type, otherwise a prefix of the type that is either all of it or nine characters shorter. */
  function DeriveScheme(authenticationType: Option<string>): (scheme: Option<string>)
    ensures authenticationType.None? ==> scheme.None?
    ensures authenticationType.Some? ==> scheme.Some? && scheme.value <= authenticationType.value
    ensures scheme != authenticationType ==> |scheme.value| == |authenticationType.value| - 9
  {
    if EndsWithAuthType(authenticationType) then
      var t := authenticationType.value;
      Some(t[..|t| - |AuthTypeSuffix|])
    else
      authenticationType
  }

  /** The scheme used for shareable tickets: the given one, else the derived one. */
  function ResolveScheme(authenticationScheme: Option<string>, authenticationType: Option<string>): (scheme: Option<string>)
    ensures authenticationScheme.Some? ==> scheme == authenticationScheme
    ensures authenticationScheme.None? ==> (scheme.Some? <==> authenticationType.Some?)
    ensures authenticationScheme.None? && authenticationType.Some? ==> scheme.value <= authenticationType.value
  {
    if authenticationScheme.None? then DeriveScheme(authenticationType) else authenticationScheme
  }

  /** Upper-casing every character of a string, an independent reading of the comparison. */
  function UpperAscii(s: string): (u: string)
    ensures |u| == |s|
  {
    seq(|s|, i requires 0 <= i < |s| => ToUpperAscii(s[i]))
  }

  /** Case-insensitive equality is equality after upper-casing. */
  lemma EqualsIgnoreCaseIffUpperEqual(a: string, b: string)
    ensures EqualsIgnoreCase(a, b) <==> UpperAscii(a) == UpperAscii(b)
  {
    if UpperAscii(a) == UpperAscii(b) {
      forall i | 0 <= i < |a|
        ensures ToUpperAscii(a[i]) == ToUpperAscii(b[i])
      {
        assert UpperAscii(a)[i] == UpperAscii(b)[i];
      }
    }
  }

  /** A non-null scheme argument is used unchanged. */
  lemma ExplicitSchemeKept(scheme: string, authenticationType: Option<string>)
    ensures ResolveScheme(Some(scheme), authenticationType) == Some(scheme)
  {
  }

  /** A null authentication type does not fail and derives a null scheme. */
  lemma NullTypeDerivesNull()
    ensures DeriveScheme(None) == None
  {
  }

  /** With the suffix present, the derived scheme is the type minus its last nine
      characters: a proper prefix that, followed by the cut-off part, gives the type back. */
  lemma DeriveSchemeStrips(t: string)
    requires EndsWithIgnoreCase(t, AuthTypeSuffix)
    ensures DeriveScheme(Some(t)).Some?
    ensures var s := DeriveScheme(Some(t)).value;
      |s| == |t| - 9 && s <= t && s + t[|t| - 9..] == t &&
      EqualsIgnoreCase(t[|s|..], AuthTypeSuffix)
  {
    var s := t[..|t| - 9];
    assert s + t[|t| - 9..] == t;
  }

  /** Without the suffix, the derived scheme is the type verbatim. */
  lemma DeriveSchemeKeeps(t: string)
    requires !EndsWithIgnoreCase(t, AuthTypeSuffix)
    ensures DeriveScheme(Some(t)) == Some(t)
  {
  }

  /** Appending the suffix in any letter case and deriving gives the stem back. */
  lemma DeriveSchemeOfSuffixed(stem: string, suffix: string)
    requires EqualsIgnoreCase(suffix, AuthTypeSuffix)
    ensures DeriveScheme(Some(stem + suffix)) == Some(stem)
  {
    var t := stem + suffix;
    assert t[|t| - |AuthTypeSuffix|..] == suffix;
    assert t[..|t| - |AuthTypeSuffix|] == stem;
  }

  /** Only one occurrence of the suffix is removed. */
  lemma StripsOnce()
    ensures DeriveScheme(Some("X.AuthType.AuthType")) == Some("X.AuthType")
  {
    DeriveSchemeOfSuffixed("X.AuthType", ".AuthType");
    assert "X.AuthType" + ".AuthType" == "X.AuthType.AuthType";
  }

  /** The suffix test ignores letter case but needs all nine characters, the dot included. */
  lemma SuffixTestExamples()
    ensures DeriveScheme(Some("Cookies.authTYPE")) == Some("Cookies")
    ensures DeriveScheme(Some("Cookies.AuthTyp")) == Some("Cookies.AuthTyp")
    ensures DeriveScheme(Some("CookiesAuthType")) == Some("CookiesAuthType")
    ensures DeriveScheme(Some("AuthType")) == Some("AuthType")
  {
    DeriveSchemeOfSuffixed("Cookies", ".authTYPE");
    assert "Cookies" + ".authTYPE" == "Cookies.authTYPE";
    var miss := "Cookies.AuthTyp";
    assert ToUpperAscii(miss[|miss| - 1]) != ToUpperAscii(AuthTypeSuffix[8]);
    var noDot := "CookiesAuthType";
    assert ToUpperAscii(noDot[|noDot| - 9]) != ToUpperAscii(AuthTypeSuffix[0]);
  }

  /** The ticket format a `CookieAuthenticationOptions` holds: whatever was configured
      before, or the ASP.NET 5 compatible format bound to a scheme. */
  datatype TicketDataFormat =
    | ConfiguredFormat(id: nat)
    | AspNet5TicketDataFormat(authenticationScheme: Option<string>)

  /** The part of `CookieAuthenticationOptions` the extension reads and writes. */
  class CookieAuthenticationOptions {
    var authenticationType: Option<string>
    var ticketDataFormat: TicketDataFormat

    constructor (authenticationType: Option<string>, ticketDataFormat: TicketDataFormat)
      ensures this.authenticationType == authenticationType
      ensures this.ticketDataFormat == ticketDataFormat
    {
      this.authenticationType := authenticationType;
      this.ticketDataFormat := ticketDataFormat;
    }
  }

  /** `UseCookieAuthentication`, up to the middleware registration: only shareable
      tickets replace the ticket format, and the new format is bound to the resolved
      scheme. */
  method UseCookieAuthentication(
    options: CookieAuthenticationOptions,
    createShareableTickets: bool,
    authenticationScheme: Option<string>)
    modifies options`ticketDataFormat
    ensures !createShareableTickets ==> options.ticketDataFormat == old(options.ticketDataFormat)
    ensures createShareableTickets ==>
      options.ticketDataFormat ==
        AspNet5TicketDataFormat(ResolveScheme(authenticationScheme, options.authenticationType))
  {
    if createShareableTickets {
      var scheme := authenticationScheme;
      if scheme.None? {
        if EndsWithAuthType(options.authenticationType) {
          var t := options.authenticationType.value;
          scheme := Some(t[..|t| - |AuthTypeSuffix|]);
        } else {
          scheme := options.authenticationType;
        }
      }
      options.ticketDataFormat := AspNet5TicketDataFormat(scheme);
    }
  }
}
