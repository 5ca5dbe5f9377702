// Stored credentials, what a refresh leaves of them, and the process-local store.
module Credentials {
  import opened Prelude

  datatype OAuthCredential = OAuthCredential(
    accessToken: string,
    refreshToken: Option<string>,
    expiresAt: Option<int>,
    resourceUrl: Option<string>)

  datatype Credential = ApiKey(key: string) | OAuth(credential: OAuthCredential)

  function OrElse<T>(found: Option<T>, otherwise: Option<T>): Option<T> {
    if found.Some? then found else otherwise
  }

  // The refreshed tokens, with what the response omitted carried over from `prior`.
  function Merged(refreshed: OAuthCredential, prior: OAuthCredential): OAuthCredential {
    refreshed.(
      refreshToken := OrElse(refreshed.refreshToken, prior.refreshToken),
      resourceUrl := OrElse(refreshed.resourceUrl, prior.resourceUrl))
  }

  // A refresh never loses the refresh token or the resource URL, and rotating twice is
  // rotating once with the later response over the merged one.
  lemma {:induction false} MergedKeepsTokens(first: OAuthCredential, second: OAuthCredential, prior: OAuthCredential)
    ensures prior.refreshToken.Some? ==> Merged(first, prior).refreshToken.Some?
    ensures prior.resourceUrl.Some? ==> Merged(first, prior).resourceUrl.Some?
    ensures Merged(second, Merged(first, prior)) == Merged(Merged(second, first), prior)
    ensures Merged(prior, prior) == prior
  {
  }

  class InMemoryCredentialStore {
    var credentials: map<string, Credential>

    constructor ()
      ensures credentials == map[]
    {
      credentials := map[];
    }

    function Stored(provider: string): Option<Credential>
      reads this
    {
      if provider in credentials then Some(credentials[provider]) else None
    }

    method Get(provider: string) returns (c: Option<Credential>)
      ensures c == Stored(provider)
    {
      if provider in credentials {
        return Some(credentials[provider]);
      }
      c := None;
    }

    // Atomically reads, updates and stores. An update that fails changes nothing.
    method Modify<E>(provider: string, update: Option<Credential> -> Result<Option<Credential>, E>)
      returns (r: Result<Option<Credential>, E>)
      modifies this
      ensures r == update(old(Stored(provider)))
      ensures r.Err? ==> credentials == old(credentials)
      ensures r.Ok? ==> Stored(provider) == r.value
      ensures forall other :: other != provider ==> Stored(other) == old(Stored(other))
    {
      var current := Get(provider);
      var next := update(current);
      match next
      case Err(e) => r := Err(e);
      case Ok(None) =>
        credentials := credentials - {provider};
        r := Ok(None);
      case Ok(Some(c)) =>
        credentials := credentials[provider := c];
        r := Ok(Some(c));
    }

    method Delete(provider: string)
      modifies this
      ensures Stored(provider) == None
      ensures forall other :: other != provider ==> Stored(other) == old(Stored(other))
    {
      credentials := credentials - {provider};
    }
  }
}
