/** Normalising, resolving and validating the gateway's tokens (internal/config/config.go). */
module Config {
  import opened Failover
  import opened Routing
  import opened Text
  import opened Wire

  datatype TokenItem = TokenItem(
    name: string, tenant: string, app: string, valueEnv: string, value: string, disabled: bool,
    rateLimitQPS: real, rateLimitBurst: int, dailyTokenLimit: int)

  datatype Auth = Auth(
    rateLimitQPS: real, rateLimitBurst: int, validTokens: seq<string>, tokens: seq<TokenItem>)

  // ---- lists without blanks or repetitions ----

  /** The trimmed, non-empty items, each where it first occurs. */
  function Unique(items: seq<string>): seq<string> {
    if items == [] then []
    else
      var kept, item := Unique(items[..|items| - 1]), TrimSpace(items[|items| - 1]);
      if item == "" || item in kept then kept else kept + [item]
  }

  method UniqueNonEmpty(items: seq<string>) returns (out: seq<string>)
    ensures out == Unique(items)
  {
    var seen: set<string> := {};
    out := [];
    for i := 0 to |items|
      invariant out == Unique(items[..i])
      invariant forall x :: x in seen <==> x in out
    {
      assert items[..i + 1][..i] == items[..i];
      var normalized := TrimSpace(items[i]);
      if normalized == "" || normalized in seen {
        continue;
      }
      seen := seen + {normalized};
      out := out + [normalized];
    }
    assert items[..|items|] == items;
  }

  /** Non-empty and without white space at either end. */
  predicate Tidy(x: string) {
    x != "" && Trimmed(x)
  }

  lemma {:induction false} UniqueIsTidy(items: seq<string>)
    ensures Distinct(Unique(items))
    ensures forall x :: x in Unique(items) ==> Tidy(x)
  {
    if items == [] {
    } else {
      UniqueIsTidy(items[..|items| - 1]);
      TrimSpaceIsTrimmed(items[|items| - 1]);
    }
  }

  /** The value is one of the items, trimmed. */
  predicate Listed(items: seq<string>, value: string) {
    items != [] && value != "" && (Listed(items[..|items| - 1], value) || TrimSpace(items[|items| - 1]) == value)
  }

  lemma {:induction false} ListedIff(items: seq<string>, value: string)
    ensures Listed(items, value) <==> value != "" && exists i :: 0 <= i < |items| && TrimSpace(items[i]) == value
  {
    if items == [] {
    } else {
      ListedIff(items[..|items| - 1], value);
      assert forall i :: 0 <= i < |items| - 1 ==> items[i] == items[..|items| - 1][i];
    }
  }

  lemma {:induction false} UniqueKeepsItems(items: seq<string>, value: string)
    ensures value in Unique(items) <==> Listed(items, value)
  {
    if items == [] {
    } else {
      UniqueKeepsItems(items[..|items| - 1], value);
    }
  }

  /** Merging keeps the base list in front and in order. */
  lemma {:induction false} MergeKeepsBase(base: seq<string>, extra: seq<string>)
    ensures Unique(base) <= Unique(base + extra)
  {
    if extra == [] {
      assert base + extra == base;
    } else {
      MergeKeepsBase(base, extra[..|extra| - 1]);
      assert (base + extra)[..|base + extra| - 1] == base + extra[..|extra| - 1];
    }
  }

  lemma {:induction false} UniqueOfTidy(items: seq<string>)
    requires Distinct(items) && forall x :: x in items ==> Tidy(x)
    ensures Unique(items) == items
  {
    if items == [] {
    } else {
      var n := |items| - 1;
      assert forall i :: 0 <= i < n ==> items[i] in items;
      UniqueOfTidy(items[..n]);
      assert items[n] in items;
      TrimSpaceOfTrimmed(items[n]);
      assert items == items[..n] + [items[n]];
    }
  }

  /** Token lists are made unique when they are resolved and again when normalised; the second pass changes nothing. */
  lemma UniqueIsIdempotent(items: seq<string>)
    ensures Unique(Unique(items)) == Unique(items)
  {
    UniqueIsTidy(items);
    UniqueOfTidy(Unique(items));
  }

  // ---- token values from the environment ----

  datatype ResolveError = InlineValue(index: nat) | NoEnvName(index: nat) | EnvNotSet(index: nat)

  function EnvValue(env: map<string, string>, name: string): string {
    if name in env then TrimSpace(env[name]) else ""
  }

  /** Why the i-th token cannot be resolved, if it cannot. */
  function ResolveProblem(env: map<string, string>, t: TokenItem, i: nat): Option<ResolveError> {
    if t.disabled then None
    else if TrimSpace(t.value) != "" then Some(InlineValue(i))
    else if t.valueEnv == "" then Some(NoEnvName(i))
    else if EnvValue(env, t.valueEnv) == "" then Some(EnvNotSet(i))
    else None
  }

  predicate Resolvable(env: map<string, string>, t: TokenItem) {
    ResolveProblem(env, t, 0) == None
  }

  function Resolved(env: map<string, string>, t: TokenItem): TokenItem {
    if t.disabled then t else t.(value := EnvValue(env, t.valueEnv))
  }

  /** An enabled token resolves exactly without an inline value, from a variable that is named, set and not blank. */
  lemma ResolvableIff(env: map<string, string>, t: TokenItem)
    ensures Resolvable(env, t) <==>
      || t.disabled
      || (TrimSpace(t.value) == "" && t.valueEnv != "" && t.valueEnv in env && TrimSpace(env[t.valueEnv]) != "")
    ensures !t.disabled && Resolvable(env, t) ==> Resolved(env, t) == t.(value := TrimSpace(env[t.valueEnv]))
    ensures t.disabled ==> Resolved(env, t) == t
  {
  }

  /** The reason given is true of the token. */
  lemma ResolveProblemIs(env: map<string, string>, t: TokenItem, i: nat)
    requires ResolveProblem(env, t, i).Some?
    ensures !t.disabled
    ensures match ResolveProblem(env, t, i).value
      case InlineValue(k) => k == i && TrimSpace(t.value) != ""
      case NoEnvName(k) => k == i && TrimSpace(t.value) == "" && t.valueEnv == ""
      case EnvNotSet(k) =>
        && k == i && TrimSpace(t.value) == ""
        && (t.valueEnv in env ==> t.valueEnv != "" && TrimSpace(env[t.valueEnv]) == "")
  {
  }

  method ResolveStructuredTokens(tokens: array<TokenItem>, env: map<string, string>) returns (err: Option<ResolveError>)
    modifies tokens
    ensures err == None <==> forall i :: 0 <= i < tokens.Length ==> Resolvable(env, old(tokens[i]))
    ensures err == None ==> forall i :: 0 <= i < tokens.Length ==> tokens[i] == Resolved(env, old(tokens[i]))
    ensures err.Some? ==>
      err.value.index < tokens.Length && ResolveProblem(env, old(tokens[err.value.index]), err.value.index) == err
    ensures err.Some? ==> forall i :: 0 <= i < err.value.index ==> Resolvable(env, old(tokens[i]))
  {
    for i := 0 to tokens.Length
      invariant forall j :: 0 <= j < i ==> Resolvable(env, old(tokens[j])) && tokens[j] == Resolved(env, old(tokens[j]))
      invariant forall j :: i <= j < tokens.Length ==> tokens[j] == old(tokens[j])
    {
      if tokens[i].disabled {
        continue;
      }
      if TrimSpace(tokens[i].value) != "" {
        return Some(InlineValue(i));
      }
      if tokens[i].valueEnv == "" {
        return Some(NoEnvName(i));
      }
      if tokens[i].valueEnv !in env || TrimSpace(env[tokens[i].valueEnv]) == "" {
        return Some(EnvNotSet(i));
      }
      tokens[i] := tokens[i].(value := TrimSpace(env[tokens[i].valueEnv]));
    }
    return None;
  }

  /** Enabled tokens carry a value as resolution leaves it. */
  predicate ValuesTidy(tokens: seq<TokenItem>) {
    forall i :: 0 <= i < |tokens| && !tokens[i].disabled ==> Tidy(tokens[i].value)
  }

  lemma ResolvedIsTidy(env: map<string, string>, t: TokenItem)
    requires Resolvable(env, t)
    ensures Resolved(env, t).disabled || Tidy(Resolved(env, t).value)
  {
    if !t.disabled {
      TrimSpaceIsTrimmed(env[t.valueEnv]);
    }
  }

  lemma ResolvedAreTidy(env: map<string, string>, before: seq<TokenItem>, after: seq<TokenItem>)
    requires |before| == |after|
    requires forall i :: 0 <= i < |after| ==> Resolvable(env, before[i]) && after[i] == Resolved(env, before[i])
    ensures ValuesTidy(after)
  {
    forall i | 0 <= i < |after| && !after[i].disabled
      ensures Tidy(after[i].value)
    {
      ResolvedIsTidy(env, before[i]);
    }
  }

  // ---- validation of the token catalog ----

  datatype CatalogError =
    | DuplicateValidToken
    | EmptyName(index: nat)
    | DuplicateName(index: nat)
    | EmptyValue(index: nat)
    | DuplicateValue(index: nat)
    | NegativeRate(index: nat)
    | NegativeBurst(index: nat)
    | NegativeLimit(index: nat)

  predicate Enabled(auth: Auth, i: int) {
    0 <= i < |auth.tokens| && !auth.tokens[i].disabled
  }

  /** Position i of the valid tokens repeats an earlier one. */
  predicate RepeatsAt(tokens: seq<string>, i: nat) {
    i < |tokens| && Listed(tokens[..i], TrimSpace(tokens[i]))
  }

  predicate NamedBefore(auth: Auth, n: int, name: string) {
    exists j :: 0 <= j < n && Enabled(auth, j) && auth.tokens[j].name == name
  }

  predicate ValuedBefore(auth: Auth, n: int, value: string) {
    exists j :: 0 <= j < n && Enabled(auth, j) && auth.tokens[j].value == value
  }

  /** What is wrong with the i-th structured token, given those before it. */
  function ItemError(auth: Auth, i: nat): Option<CatalogError>
    requires i < |auth.tokens|
  {
    var token := auth.tokens[i];
    if token.disabled then None
    else if token.name == "" then Some(EmptyName(i))
    else if NamedBefore(auth, i, token.name) then Some(DuplicateName(i))
    else if token.value == "" then Some(EmptyValue(i))
    else if Listed(auth.validTokens, token.value) || ValuedBefore(auth, i, token.value) then Some(DuplicateValue(i))
    else if token.rateLimitQPS < 0.0 then Some(NegativeRate(i))
    else if token.rateLimitBurst < 0 then Some(NegativeBurst(i))
    else if token.dailyTokenLimit < 0 then Some(NegativeLimit(i))
    else None
  }

  lemma ListedStep(tokens: seq<string>, i: nat)
    requires i < |tokens|
    ensures forall v :: Listed(tokens[..i + 1], v) <==> Listed(tokens[..i], v) || (v != "" && TrimSpace(tokens[i]) == v)
  {
    var longer := tokens[..i + 1];
    assert longer[..i] == tokens[..i] && longer[i] == tokens[i];
    forall v
      ensures Listed(longer, v) <==> Listed(tokens[..i], v) || (v != "" && TrimSpace(tokens[i]) == v)
    {
      if Listed(tokens[..i], v) {
        assert v != "";
      }
    }
  }

  /** The first loop of the validation: the values of the valid tokens, unless one is repeated. */
  method ValuesSeen(tokens: seq<string>) returns (repeated: bool, seenValues: set<string>)
    ensures repeated <==> exists i :: RepeatsAt(tokens, i)
    ensures !repeated ==> forall v :: v in seenValues <==> Listed(tokens, v)
  {
    seenValues := {};
    for i := 0 to |tokens|
      invariant forall j :: 0 <= j < i ==> !RepeatsAt(tokens, j)
      invariant forall v :: v in seenValues <==> Listed(tokens[..i], v)
    {
      ListedStep(tokens, i);
      var normalized := TrimSpace(tokens[i]);
      if normalized == "" {
        continue;
      }
      if normalized in seenValues {
        assert RepeatsAt(tokens, i);
        return true, {};
      }
      seenValues := seenValues + {normalized};
    }
    assert tokens[..|tokens|] == tokens;
    return false, seenValues;
  }

  method ValidateTokenCatalog(auth: Auth) returns (err: Option<CatalogError>)
    ensures err == Some(DuplicateValidToken) <==> exists i :: RepeatsAt(auth.validTokens, i)
    ensures err.Some? && err != Some(DuplicateValidToken) ==>
      err.value.index < |auth.tokens| && ItemError(auth, err.value.index) == err
    ensures err.Some? && err != Some(DuplicateValidToken) ==>
      forall i :: 0 <= i < err.value.index ==> ItemError(auth, i) == None
    ensures err == None <==> Accepted(auth)
  {
    var repeated, seenValues := ValuesSeen(auth.validTokens);
    if repeated {
      return Some(DuplicateValidToken);
    }
    var seenNames: set<string> := {};
    for i := 0 to |auth.tokens|
      invariant forall j :: 0 <= j < i ==> ItemError(auth, j) == None
      invariant forall x :: x in seenNames <==> NamedBefore(auth, i, x)
      invariant forall v :: v in seenValues <==> Listed(auth.validTokens, v) || ValuedBefore(auth, i, v)
    {
      var token := auth.tokens[i];
      if token.disabled {
        continue;
      }
      if token.name == "" {
        return Some(EmptyName(i));
      }
      if token.name in seenNames {
        return Some(DuplicateName(i));
      }
      seenNames := seenNames + {token.name};
      if token.value == "" {
        return Some(EmptyValue(i));
      }
      if token.value in seenValues {
        return Some(DuplicateValue(i));
      }
      seenValues := seenValues + {token.value};
      if token.rateLimitQPS < 0.0 {
        return Some(NegativeRate(i));
      }
      if token.rateLimitBurst < 0 {
        return Some(NegativeBurst(i));
      }
      if token.dailyTokenLimit < 0 {
        return Some(NegativeLimit(i));
      }
    }
    return None;
  }

  /** Valid tokens that went through `uniqueNonEmpty` cannot be reported as repeated. */
  lemma NormalizedNeverRepeats(raw: seq<string>, i: nat)
    ensures !RepeatsAt(Unique(raw), i)
  {
    var tokens := Unique(raw);
    UniqueIsTidy(raw);
    if i < |tokens| {
      assert tokens[i] in tokens;
      TrimSpaceOfTrimmed(tokens[i]);
      ListedIff(tokens[..i], tokens[i]);
      forall j | 0 <= j < i
        ensures TrimSpace(tokens[..i][j]) != tokens[i]
      {
        assert tokens[j] in tokens;
        TrimSpaceOfTrimmed(tokens[j]);
      }
    }
  }

  /** Validation passes the structured tokens. */
  ghost predicate Accepted(auth: Auth) {
    && (forall i :: !RepeatsAt(auth.validTokens, i))
    && (forall i :: 0 <= i < |auth.tokens| ==> ItemError(auth, i) == None)
  }

  /** Enabled tokens are fit: named, with a value that is no valid token's, and without negative limits. */
  ghost predicate ItemsFit(auth: Auth) {
    forall i :: Enabled(auth, i) ==>
      var t := auth.tokens[i];
      && t.name != "" && t.value != ""
      && (forall k :: 0 <= k < |auth.validTokens| ==> TrimSpace(auth.validTokens[k]) != t.value)
      && t.rateLimitQPS >= 0.0 && t.rateLimitBurst >= 0 && t.dailyTokenLimit >= 0
  }

  ghost predicate ItemsApart(auth: Auth) {
    forall i, j :: Enabled(auth, i) && Enabled(auth, j) && i < j ==>
      auth.tokens[i].name != auth.tokens[j].name && auth.tokens[i].value != auth.tokens[j].value
  }

  ghost predicate ValidApart(tokens: seq<string>) {
    forall i, j :: 0 <= i < j < |tokens| && TrimSpace(tokens[i]) != "" ==> TrimSpace(tokens[i]) != TrimSpace(tokens[j])
  }

  lemma {:induction false} RepeatsIff(tokens: seq<string>)
    ensures (forall i :: !RepeatsAt(tokens, i)) <==> ValidApart(tokens)
  {
    forall i: nat | i < |tokens|
      ensures RepeatsAt(tokens, i) <==>
        TrimSpace(tokens[i]) != "" && exists k :: 0 <= k < i && TrimSpace(tokens[k]) == TrimSpace(tokens[i])
    {
      ListedIff(tokens[..i], TrimSpace(tokens[i]));
      assert forall k :: 0 <= k < i ==> tokens[..i][k] == tokens[k];
    }
    if ValidApart(tokens) {
      forall i: nat
        ensures !RepeatsAt(tokens, i)
      {
      }
    } else {
      var i, j :| 0 <= i < j < |tokens| && TrimSpace(tokens[i]) != "" && TrimSpace(tokens[i]) == TrimSpace(tokens[j]);
      assert RepeatsAt(tokens, j);
    }
  }

  lemma {:induction false} ItemErrorIff(auth: Auth, i: nat)
    requires Enabled(auth, i)
    ensures ItemError(auth, i) == None <==>
      var t := auth.tokens[i];
      && t.name != "" && t.value != ""
      && (forall k :: 0 <= k < |auth.validTokens| ==> TrimSpace(auth.validTokens[k]) != t.value)
      && (forall j :: 0 <= j < i && Enabled(auth, j) ==>
           auth.tokens[j].name != t.name && auth.tokens[j].value != t.value)
      && t.rateLimitQPS >= 0.0 && t.rateLimitBurst >= 0 && t.dailyTokenLimit >= 0
  {
    ListedIff(auth.validTokens, auth.tokens[i].value);
  }

  /** Validation passes a catalog exactly when its valid tokens differ and its enabled ones are fit and differ. */
  lemma {:induction false} AcceptedIff(auth: Auth)
    ensures Accepted(auth) <==> ValidApart(auth.validTokens) && ItemsFit(auth) && ItemsApart(auth)
  {
    RepeatsIff(auth.validTokens);
    forall i: nat | Enabled(auth, i)
      ensures ItemError(auth, i) == None <==>
        var t := auth.tokens[i];
        && t.name != "" && t.value != ""
        && (forall k :: 0 <= k < |auth.validTokens| ==> TrimSpace(auth.validTokens[k]) != t.value)
        && (forall j :: 0 <= j < i && Enabled(auth, j) ==>
             auth.tokens[j].name != t.name && auth.tokens[j].value != t.value)
        && t.rateLimitQPS >= 0.0 && t.rateLimitBurst >= 0 && t.dailyTokenLimit >= 0
    {
      ItemErrorIff(auth, i);
    }
  }

  /** The reason given is true of the token. */
  lemma ItemErrorIs(auth: Auth, i: nat)
    requires i < |auth.tokens| && ItemError(auth, i).Some?
    ensures !auth.tokens[i].disabled
    ensures var t := auth.tokens[i];
      match ItemError(auth, i).value
      case EmptyName(k) => k == i && t.name == ""
      case DuplicateName(k) => k == i && exists j :: 0 <= j < i && Enabled(auth, j) && auth.tokens[j].name == t.name
      case EmptyValue(k) => k == i && t.value == ""
      case DuplicateValue(k) =>
        k == i &&
        ((exists j :: 0 <= j < |auth.validTokens| && TrimSpace(auth.validTokens[j]) == t.value)
         || exists j :: 0 <= j < i && Enabled(auth, j) && auth.tokens[j].value == t.value)
      case NegativeRate(k) => k == i && t.rateLimitQPS < 0.0
      case NegativeBurst(k) => k == i && t.rateLimitBurst < 0
      case NegativeLimit(k) => k == i && t.dailyTokenLimit < 0
      case DuplicateValidToken => false
  {
    ListedIff(auth.validTokens, auth.tokens[i].value);
  }

  // ---- providers ----

  datatype ProviderError =
    | NoProviders
    | EmptyProviderName(index: nat)
    | DuplicateProviderName(index: nat)
    | BadBaseURL(index: nat)
    | NoModels(index: nat)
    | BadPriority(index: nat)
    | BadMaxRetries(index: nat)

  predicate ProviderNamedBefore(ps: seq<Provider>, n: nat, name: string) {
    exists j :: 0 <= j < n <= |ps| && ps[j].name == name
  }

  /** `usable` stands for the parsing of base URLs. */
  function ProviderProblem(usable: string -> bool, ps: seq<Provider>, i: nat): Option<ProviderError>
    requires i < |ps|
  {
    var p := ps[i];
    if p.name == "" then Some(EmptyProviderName(i))
    else if ProviderNamedBefore(ps, i, p.name) then Some(DuplicateProviderName(i))
    else if !usable(p.baseURL) then Some(BadBaseURL(i))
    else if p.models == [] then Some(NoModels(i))
    else if p.priority <= 0 then Some(BadPriority(i))
    else if p.maxRetries < 0 then Some(BadMaxRetries(i))
    else None
  }

  method ValidateProviders(usable: string -> bool, ps: seq<Provider>) returns (err: Option<ProviderError>)
    ensures err == Some(NoProviders) <==> ps == []
    ensures err == None ==> forall i :: 0 <= i < |ps| ==> ProviderProblem(usable, ps, i) == None
    ensures err.Some? && err != Some(NoProviders) ==>
      err.value.index < |ps| && ProviderProblem(usable, ps, err.value.index) == err
    ensures err.Some? && err != Some(NoProviders) ==>
      forall i :: 0 <= i < err.value.index ==> ProviderProblem(usable, ps, i) == None
    ensures err == None ==> DistinctNames(ps)
  {
    if ps == [] {
      return Some(NoProviders);
    }
    var seenProviders: set<string> := {};
    for i := 0 to |ps|
      invariant forall j :: 0 <= j < i ==> ProviderProblem(usable, ps, j) == None
      invariant forall x :: x in seenProviders <==> ProviderNamedBefore(ps, i, x)
    {
      var provider := ps[i];
      if provider.name == "" {
        return Some(EmptyProviderName(i));
      }
      if provider.name in seenProviders {
        return Some(DuplicateProviderName(i));
      }
      seenProviders := seenProviders + {provider.name};
      if !usable(provider.baseURL) {
        return Some(BadBaseURL(i));
      }
      if provider.models == [] {
        return Some(NoModels(i));
      }
      if provider.priority <= 0 {
        return Some(BadPriority(i));
      }
      if provider.maxRetries < 0 {
        return Some(BadMaxRetries(i));
      }
    }
    forall i, j | 0 <= i < j < |ps|
      ensures ps[i].name != ps[j].name
    {
      assert ProviderProblem(usable, ps, j) == None;
    }
    return None;
  }

  lemma ProviderPassesIff(usable: string -> bool, ps: seq<Provider>, i: nat)
    requires i < |ps|
    ensures ProviderProblem(usable, ps, i) == None <==>
      && (forall j :: 0 <= j < i ==> ps[j].name != ps[i].name)
      && ps[i].name != "" && usable(ps[i].baseURL) && ps[i].models != []
      && ps[i].priority > 0 && ps[i].maxRetries >= 0
  {
  }

  /** Providers pass exactly when there is one, each is complete and in range, and no two share a name. */
  lemma {:induction false} ProvidersPassIff(usable: string -> bool, ps: seq<Provider>)
    ensures (forall i :: 0 <= i < |ps| ==> ProviderProblem(usable, ps, i) == None) <==>
      && DistinctNames(ps)
      && forall i :: 0 <= i < |ps| ==>
           && ps[i].name != "" && usable(ps[i].baseURL) && ps[i].models != []
           && ps[i].priority > 0 && ps[i].maxRetries >= 0
  {
    forall i: nat | i < |ps|
      ensures ProviderProblem(usable, ps, i) == None <==>
        && (forall j :: 0 <= j < i ==> ps[j].name != ps[i].name)
        && ps[i].name != "" && usable(ps[i].baseURL) && ps[i].models != []
        && ps[i].priority > 0 && ps[i].maxRetries >= 0
    {
      ProviderPassesIff(usable, ps, i);
    }
  }

  /** The reason given is true of the provider. */
  lemma ProviderProblemIs(usable: string -> bool, ps: seq<Provider>, i: nat)
    requires i < |ps| && ProviderProblem(usable, ps, i).Some?
    ensures match ProviderProblem(usable, ps, i).value
      case NoProviders => false
      case EmptyProviderName(k) => k == i && ps[i].name == ""
      case DuplicateProviderName(k) => k == i && exists j :: 0 <= j < i && ps[j].name == ps[i].name
      case BadBaseURL(k) => k == i && !usable(ps[i].baseURL)
      case NoModels(k) => k == i && ps[i].models == []
      case BadPriority(k) => k == i && ps[i].priority <= 0
      case BadMaxRetries(k) => k == i && ps[i].maxRetries < 0
  {
  }

  // ---- upstream defaults ----

  /** The upstream section; durations are kept as the texts they are configured by. */
  datatype Upstream = Upstream(
    retry: Settings, retryBackoff: string, healthCheckInterval: string, healthCheckTimeout: string,
    breakerInterval: string, breakerTimeout: string, breakerFailureRatio: real,
    breakerMinimumRequests: nat, breakerHalfOpenRequests: nat)

  function WithRetryDefaults(cfg: Settings): Settings {
    Settings(
      if cfg.retryableStatusCodes == [] then [429, 500, 502, 503, 504] else cfg.retryableStatusCodes,
      if cfg.defaultMaxRetries < 0 then 0 else cfg.defaultMaxRetries)
  }

  function OrDefault(text: string, fallback: string): string {
    if TrimSpace(text) == "" then fallback else text
  }

  function WithDefaults(u: Upstream): Upstream {
    Upstream(
      WithRetryDefaults(u.retry), OrDefault(u.retryBackoff, "200ms"), OrDefault(u.healthCheckInterval, "15s"),
      OrDefault(u.healthCheckTimeout, "2s"), OrDefault(u.breakerInterval, "10s"), OrDefault(u.breakerTimeout, "15s"),
      if 0.0 < u.breakerFailureRatio <= 1.0 then u.breakerFailureRatio else 0.5,
      if u.breakerMinimumRequests == 0 then 5 else u.breakerMinimumRequests,
      if u.breakerHalfOpenRequests == 0 then 3 else u.breakerHalfOpenRequests)
  }

  function Defaulted(p: Provider): Provider {
    p.(priority := if p.priority <= 0 then 100 else p.priority,
       maxRetries := if p.maxRetries < 0 then 0 else p.maxRetries)
  }

  /** Settings in range are kept, all are in range afterwards, and applying the defaults again changes nothing. */
  lemma DefaultsFillGaps(u: Upstream)
    ensures var v := WithDefaults(u);
      && v.retry.retryableStatusCodes != [] && v.retry.defaultMaxRetries >= 0
      && 0.0 < v.breakerFailureRatio <= 1.0 && v.breakerMinimumRequests > 0 && v.breakerHalfOpenRequests > 0
      && TrimSpace(v.retryBackoff) != "" && TrimSpace(v.healthCheckInterval) != ""
      && TrimSpace(v.healthCheckTimeout) != ""
      && TrimSpace(v.breakerInterval) != "" && TrimSpace(v.breakerTimeout) != ""
    ensures WithDefaults(WithDefaults(u)) == WithDefaults(u)
    ensures
      && u.retry.retryableStatusCodes != [] && u.retry.defaultMaxRetries >= 0
      && 0.0 < u.breakerFailureRatio <= 1.0 && u.breakerMinimumRequests > 0 && u.breakerHalfOpenRequests > 0
      && TrimSpace(u.retryBackoff) != "" && TrimSpace(u.healthCheckInterval) != ""
      && TrimSpace(u.healthCheckTimeout) != ""
      && TrimSpace(u.breakerInterval) != "" && TrimSpace(u.breakerTimeout) != ""
      ==> WithDefaults(u) == u
  {
    TrimSpaceOfTrimmed("200ms");
    TrimSpaceOfTrimmed("15s");
    TrimSpaceOfTrimmed("2s");
    TrimSpaceOfTrimmed("10s");
  }

  /** What is missing or out of range gets the documented value. */
  lemma DefaultValues(u: Upstream, p: Provider)
    ensures u.retry.retryableStatusCodes == [] ==>
      WithDefaults(u).retry.retryableStatusCodes == [429, 500, 502, 503, 504]
    ensures u.retry.defaultMaxRetries < 0 ==> WithDefaults(u).retry.defaultMaxRetries == 0
    ensures TrimSpace(u.retryBackoff) == "" ==> WithDefaults(u).retryBackoff == "200ms"
    ensures TrimSpace(u.healthCheckInterval) == "" ==> WithDefaults(u).healthCheckInterval == "15s"
    ensures TrimSpace(u.healthCheckTimeout) == "" ==> WithDefaults(u).healthCheckTimeout == "2s"
    ensures TrimSpace(u.breakerInterval) == "" ==> WithDefaults(u).breakerInterval == "10s"
    ensures TrimSpace(u.breakerTimeout) == "" ==> WithDefaults(u).breakerTimeout == "15s"
    ensures !(0.0 < u.breakerFailureRatio <= 1.0) ==> WithDefaults(u).breakerFailureRatio == 0.5
    ensures u.breakerMinimumRequests == 0 ==> WithDefaults(u).breakerMinimumRequests == 5
    ensures u.breakerHalfOpenRequests == 0 ==> WithDefaults(u).breakerHalfOpenRequests == 3
    ensures Defaulted(p).priority == if p.priority <= 0 then 100 else p.priority
    ensures Defaulted(p).maxRetries == if p.maxRetries < 0 then 0 else p.maxRetries
    ensures Route(Defaulted(p)).name == p.name && Route(Defaulted(p)).baseURL == p.baseURL
    ensures Defaulted(p).models == p.models && Route(Defaulted(p)).apiKey == p.apiKey
  {
  }

  method ApplyUpstreamDefaults(cfg: Upstream, providers: array<Provider>) returns (out: Upstream)
    modifies providers
    ensures out == WithDefaults(cfg)
    ensures forall i :: 0 <= i < providers.Length ==> providers[i] == Defaulted(old(providers[i]))
  {
    out := DefaultUpstream(cfg);
    DefaultProviders(providers);
  }

  /** The loop over providers. */
  method DefaultProviders(providers: array<Provider>)
    modifies providers
    ensures forall i :: 0 <= i < providers.Length ==> providers[i] == Defaulted(old(providers[i]))
  {
    for i := 0 to providers.Length
      invariant forall j :: 0 <= j < i ==> providers[j] == Defaulted(old(providers[j]))
      invariant forall j :: i <= j < providers.Length ==> providers[j] == old(providers[j])
    {
      var provider := DefaultProvider(providers[i]);
      providers[i] := provider;
    }
  }

  /** The body of that loop. */
  method DefaultProvider(before: Provider) returns (provider: Provider)
    ensures provider == Defaulted(before)
  {
    provider := before;
    if provider.priority <= 0 {
      provider := provider.(priority := 100);
    }
    if provider.maxRetries < 0 {
      provider := provider.(maxRetries := 0);
    }
  }

  /** The assignments before the loop over providers. */
  method DefaultUpstream(cfg: Upstream) returns (out: Upstream)
    ensures out == WithDefaults(cfg)
  {
    out := cfg;
    if out.retry.defaultMaxRetries < 0 {
      out := out.(retry := out.retry.(defaultMaxRetries := 0));
    }
    if |out.retry.retryableStatusCodes| == 0 {
      out := out.(retry := out.retry.(retryableStatusCodes := [429, 500, 502, 503, 504]));
    }
    out := DefaultDurations(out);
    if out.breakerFailureRatio <= 0.0 || out.breakerFailureRatio > 1.0 {
      out := out.(breakerFailureRatio := 0.5);
    }
    if out.breakerMinimumRequests == 0 {
      out := out.(breakerMinimumRequests := 5);
    }
    if out.breakerHalfOpenRequests == 0 {
      out := out.(breakerHalfOpenRequests := 3);
    }
  }

  method DefaultDurations(cfg: Upstream) returns (out: Upstream)
    ensures out == cfg.(
      retryBackoff := OrDefault(cfg.retryBackoff, "200ms"),
      healthCheckInterval := OrDefault(cfg.healthCheckInterval, "15s"),
      healthCheckTimeout := OrDefault(cfg.healthCheckTimeout, "2s"),
      breakerInterval := OrDefault(cfg.breakerInterval, "10s"),
      breakerTimeout := OrDefault(cfg.breakerTimeout, "15s"))
  {
    out := cfg;
    if TrimSpace(out.retryBackoff) == "" {
      out := out.(retryBackoff := "200ms");
    }
    if TrimSpace(out.healthCheckInterval) == "" {
      out := out.(healthCheckInterval := "15s");
    }
    if TrimSpace(out.healthCheckTimeout) == "" {
      out := out.(healthCheckTimeout := "2s");
    }
    if TrimSpace(out.breakerInterval) == "" {
      out := out.(breakerInterval := "10s");
    }
    if TrimSpace(out.breakerTimeout) == "" {
      out := out.(breakerTimeout := "15s");
    }
  }

  /** Whatever a loaded configuration routes a model to can be attempted at least once. */
  lemma CandidatesHaveBudgets(w: World, before: Upstream, ps: seq<Provider>, raw: seq<Provider>, model: string)
    requires w.cfg == WithDefaults(before).retry && w.cands == StableSort(Matching(ps, model))
    requires |ps| == |raw| && forall i :: 0 <= i < |ps| ==> ps[i] == Defaulted(raw[i])
    ensures DefaultsApplied(w)
  {
    SortElements(Matching(ps, model));
    forall i | 0 <= i < |w.cands|
      ensures w.cands[i].maxRetries >= 0
    {
      assert w.cands[i] in multiset(Matching(ps, model));
      MatchingElements(ps, model, w.cands[i]);
    }
  }
}
