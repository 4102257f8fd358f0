/** packages/getter-provider/src/lib.rs: `ProviderManager`, which keeps
    the registered providers by friendly name and dispatches the three
    calls to them. A provider is its identity here; what it answers for a
    call is a parameter (`call`), since that is the provider's own HTTP
    work. */
module ProviderManagement {
  import opened Wrappers
  import opened BaseProvider

  /** A provider as the manager sees it: its UUID and its friendly name. */
  datatype Provider = Provider(uuid: string, friendlyName: string)

  const GitHubProvider := Provider("fd9b2602-62c5-4d55-bd1e-0d6537714ca0", "github")
  const GitLabProvider := Provider("2f8e3d4c-1a9b-4e7f-8c2d-5a3b9e6f1c4d", "gitlab")
  const LsposedProvider := Provider("8e7f9a2d-5c41-4b68-9f31-2e8d7c6a4b9f", "lsposed")
  const FDroidProvider := Provider("fd9b2602-62c5-4d55-bd1e-0d6537714ca1", "fdroid")

  /** `HashMap::get` on the provider table. */
  function Lookup(providers: map<string, Provider>, name: string): (r: Option<Provider>)
    ensures r.Some? <==> name in providers
    ensures r.Some? ==> r.value == providers[name]
  {
    if name in providers then Some(providers[name]) else None
  }

  /** After registering `p`, its name finds `p` and every other name
      finds what it found before. */
  lemma RegisterThenLookup(providers: map<string, Provider>, p: Provider, name: string)
    ensures Lookup(providers[p.friendlyName := p], name)
            == if name == p.friendlyName then Some(p) else Lookup(providers, name)
  {
  }

  /** The error of a call to a provider that is not registered. */
  function MissingProvider(name: string): string {
    "Provider '" + name + "' not found"
  }

  /** The four providers of this crate have four different names, so
      registering them all keeps each one reachable. */
  lemma BuiltinsReachable(providers: map<string, Provider>)
    ensures var m := providers[GitHubProvider.friendlyName := GitHubProvider]
                              [GitLabProvider.friendlyName := GitLabProvider]
                              [LsposedProvider.friendlyName := LsposedProvider]
                              [FDroidProvider.friendlyName := FDroidProvider];
            && Lookup(m, "github") == Some(GitHubProvider) && Lookup(m, "gitlab") == Some(GitLabProvider)
            && Lookup(m, "lsposed") == Some(LsposedProvider) && Lookup(m, "fdroid") == Some(FDroidProvider)
  {
    assert "github" != "gitlab" && "github" != "lsposed" && "github" != "fdroid";
    assert "gitlab" != "lsposed" && "gitlab" != "fdroid" && "lsposed" != "fdroid";
  }

  class ProviderManager {
    var providers: map<string, Provider>

    /** `ProviderManager::new`: no providers. */
    constructor ()
      ensures providers == map[]
    {
      providers := map[];
    }

    /** `register_provider`: keyed by friendly name; a provider of the same
        name is replaced. */
    method RegisterProvider(p: Provider)
      modifies this
      ensures providers == old(providers)[p.friendlyName := p]
    {
      providers := providers[p.friendlyName := p];
    }

    /** `get_provider`. */
    function GetProvider(name: string): (r: Option<Provider>)
      reads this
      ensures r == Lookup(providers, name)
    {
      if name in providers then Some(providers[name]) else None
    }

    /** `check_app_available`, `get_latest_release` and `get_releases`: the
        registered provider's result, or the "not found" error. */
    function Dispatch<T>(name: string, call: Provider -> FResult<T>): (r: FResult<T>)
      reads this
      ensures name !in providers ==> r == Error(Other, MissingProvider(name))
      ensures name in providers ==> r == call(providers[name])
    {
      match GetProvider(name)
      case Some(p) => call(p)
      case None => Error(Other, MissingProvider(name))
    }
  }

  /** A fresh manager knows no provider, whatever the call. */
  method FreshManagerFindsNothing<T>(name: string, call: Provider -> FResult<T>) returns (r: FResult<T>)
    ensures r == Error(Other, MissingProvider(name))
  {
    var manager := new ProviderManager();
    r := manager.Dispatch(name, call);
  }

  /** Registering twice under one name leaves the second provider. */
  method ReRegisterReplaces(first: Provider, second: Provider) returns (found: Option<Provider>)
    requires first.friendlyName == second.friendlyName
    ensures found == Some(second)
  {
    var manager := new ProviderManager();
    manager.RegisterProvider(first);
    manager.RegisterProvider(second);
    found := manager.GetProvider(first.friendlyName);
  }
}
