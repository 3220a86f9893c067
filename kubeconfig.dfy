/**
 * The kubeconfig handling of pkg/drivers/kubernetes/kubeconfig.go: choosing the context to
 * use, and cutting a loaded configuration down to the allowed contexts and the clusters
 * and users they refer to. Locating and reading the file, inlining certificate files and
 * `clientcmd.Validate` are outside the model; validation enters as a function.
 */
module Kubeconfig {
  import opened Wrappers
  import opened GoMaps

  /** A kubeconfig context: the cluster and user (auth info) it names, and its namespace. */
  datatype Context = Context(cluster: string, authInfo: string, namespace: string)

  /** The parts of a `clientcmdapi.Config` the stripping touches; clusters and users are opaque. */
  datatype Config<C, A> = Config(
    currentContext: string,
    clusters: map<string, C>,
    authInfos: map<string, A>,
    contexts: map<string, Context>)

  /** `createAllowedContextMap`: every given name, mapped to itself. */
  method CreateAllowedContextMap(contexts: seq<string>) returns (aContextMap: map<string, string>)
    ensures forall k :: k in aContextMap <==> k in contexts
    ensures forall k :: k in aContextMap ==> aContextMap[k] == k
  {
    aContextMap := map[];
    for i := 0 to |contexts|
      invariant forall k :: k in aContextMap <==> k in contexts[..i]
      invariant forall k :: k in aContextMap ==> aContextMap[k] == k
    {
      assert contexts[..i + 1] == contexts[..i] + [contexts[i]];
      aContextMap := aContextMap[contexts[i] := contexts[i]];
    }
    assert contexts[..|contexts|] == contexts;
  }

  /** Context `name` of `raw` survives: it is allowed and its user and cluster both exist. */
  ghost predicate Kept<C, A>(raw: Config<C, A>, allowed: seq<string>, name: string)
  {
    && name in raw.contexts
    && name in allowed
    && raw.contexts[name].authInfo in raw.authInfos
    && raw.contexts[name].cluster in raw.clusters
  }

  function ClusterOf(context: Context): string { context.cluster }

  function AuthInfoOf(context: Context): string { context.authInfo }

  /**
   * `m` holds exactly the entries of `src` that some context refers to through `pick`,
   * under the same names.
   */
  ghost predicate Covers<T>(m: map<string, T>, src: map<string, T>, contexts: map<string, Context>, pick: Context -> string)
  {
    && (forall c :: c in m <==> exists n :: n in contexts && pick(contexts[n]) == c)
    && (forall c :: c in m ==> c in src && m[c] == src[c])
  }

  /**
   * The contexts of `out` are contexts of `raw`, and its clusters and users are exactly
   * those its contexts refer to, each as `raw` has it.
   */
  ghost predicate Referenced<C, A>(out: Config<C, A>, raw: Config<C, A>)
  {
    && (forall n :: n in out.contexts ==> n in raw.contexts && out.contexts[n] == raw.contexts[n])
    && Covers(out.clusters, raw.clusters, out.contexts, ClusterOf)
    && Covers(out.authInfos, raw.authInfos, out.contexts, AuthInfoOf)
  }

  /** `out` is `raw` stripped to the allowed contexts, with `current` as its current context. */
  ghost predicate StrippedFrom<C, A>(out: Config<C, A>, raw: Config<C, A>, current: string, allowed: seq<string>)
  {
    && out.currentContext == current
    && (forall n :: n in out.contexts <==> Kept(raw, allowed, n))
    && Referenced(out, raw)
  }

  /** The entries a set of contexts refers to are determined by the contexts. */
  lemma CoversUnique<T>(m1: map<string, T>, m2: map<string, T>, src: map<string, T>,
                        contexts: map<string, Context>, pick: Context -> string)
    requires Covers(m1, src, contexts, pick) && Covers(m2, src, contexts, pick)
    ensures m1 == m2
  {
    assert forall c :: c in m1 <==> c in m2;
  }

  /** The stripped configuration is determined by its inputs. */
  lemma StrippedUnique<C, A>(out1: Config<C, A>, out2: Config<C, A>, raw: Config<C, A>, current: string, allowed: seq<string>)
    requires StrippedFrom(out1, raw, current, allowed) && StrippedFrom(out2, raw, current, allowed)
    ensures out1 == out2
  {
    assert out1.contexts == out2.contexts;
    CoversUnique(out1.clusters, out2.clusters, raw.clusters, out1.contexts, ClusterOf);
    CoversUnique(out1.authInfos, out2.authInfos, raw.authInfos, out1.contexts, AuthInfoOf);
  }

  /** Adding a new context and the entry it refers to keeps `m` covering exactly the references. */
  lemma CoversStep<T>(m: map<string, T>, src: map<string, T>, contexts: map<string, Context>,
                      pick: Context -> string, name: string, context: Context)
    requires Covers(m, src, contexts, pick)
    requires name !in contexts && pick(context) in src
    ensures Covers(m[pick(context) := src[pick(context)]], src, contexts[name := context], pick)
  {
    var m', contexts' := m[pick(context) := src[pick(context)]], contexts[name := context];
    forall c | c in m' ensures exists n :: n in contexts' && pick(contexts'[n]) == c {
      if c == pick(context) {
        assert pick(contexts'[name]) == c;
      } else {
        var n :| n in contexts && pick(contexts[n]) == c;
        assert pick(contexts'[n]) == c;
      }
    }
  }

  /** Keeping an allowed, complete context and what it refers to keeps the copy faithful to `raw`. */
  lemma KeptStep<C, A>(copyConf: Config<C, A>, raw: Config<C, A>, allowed: seq<string>,
                       visited: seq<string>, name: string)
    requires Kept(raw, allowed, name) && name !in visited
    requires forall n :: n in copyConf.contexts <==> n in visited && Kept(raw, allowed, n)
    requires Referenced(copyConf, raw)
    ensures var context := raw.contexts[name];
            var next := copyConf.(clusters := copyConf.clusters[context.cluster := raw.clusters[context.cluster]],
                                  authInfos := copyConf.authInfos[context.authInfo := raw.authInfos[context.authInfo]],
                                  contexts := copyConf.contexts[name := context]);
            && Referenced(next, raw)
            && forall n :: n in next.contexts <==> n in visited + [name] && Kept(raw, allowed, n)
  {
    var context := raw.contexts[name];
    CoversStep(copyConf.clusters, raw.clusters, copyConf.contexts, ClusterOf, name, context);
    CoversStep(copyConf.authInfos, raw.authInfos, copyConf.contexts, AuthInfoOf, name, context);
  }

  /** Passing over a context that is not kept leaves the copy as it was. */
  lemma SkippedStep<C, A>(copyConf: Config<C, A>, raw: Config<C, A>, allowed: seq<string>,
                          visited: seq<string>, name: string)
    requires !Kept(raw, allowed, name)
    requires forall n :: n in copyConf.contexts <==> n in visited && Kept(raw, allowed, n)
    ensures forall n :: n in copyConf.contexts <==> n in visited + [name] && Kept(raw, allowed, n)
  {
  }

  /** One pass of the filtering loop: keep context `contextName` when it is allowed and complete. */
  method Visit<C, A>(copyConf: Config<C, A>, raw: Config<C, A>, aContextMap: map<string, string>,
                     ghost allowedContexts: seq<string>, ghost visited: seq<string>, contextName: string)
    returns (next: Config<C, A>)
    requires contextName in raw.contexts && contextName !in visited
    requires forall k :: k in aContextMap <==> k in allowedContexts
    requires forall n :: n in copyConf.contexts <==> n in visited && Kept(raw, allowedContexts, n)
    requires Referenced(copyConf, raw)
    ensures Referenced(next, raw)
    ensures next.currentContext == copyConf.currentContext
    ensures forall n :: n in next.contexts <==> n in visited + [contextName] && Kept(raw, allowedContexts, n)
  {
    var context := raw.contexts[contextName];
    var userName, clusterName := context.authInfo, context.cluster;
    var userFound, clusterFound := userName in raw.authInfos, clusterName in raw.clusters;
    var isAllowed := contextName in aContextMap;
    if userFound && clusterFound && isAllowed {
      KeptStep(copyConf, raw, allowedContexts, visited, contextName);
      next := copyConf.(clusters := copyConf.clusters[clusterName := raw.clusters[clusterName]],
                        authInfos := copyConf.authInfos[userName := raw.authInfos[userName]],
                        contexts := copyConf.contexts[contextName := context]);
    } else {
      SkippedStep(copyConf, raw, allowedContexts, visited, contextName);
      next := copyConf;
    }
  }

  /** The filtering loop of `stripAndValidateClientContexts`, before validation. */
  method StripContexts<C, A>(raw: Config<C, A>, currentContext: string, allowedContexts: seq<string>)
    returns (copyConf: Config<C, A>)
    ensures StrippedFrom(copyConf, raw, currentContext, allowedContexts)
  {
    copyConf := Config(currentContext, map[], map[], map[]);
    var aContextMap := CreateAllowedContextMap(allowedContexts);
    var names := MapOrder(raw.contexts);
    for i := 0 to |names|
      invariant copyConf.currentContext == currentContext
      invariant forall n :: n in copyConf.contexts <==> n in names[..i] && Kept(raw, allowedContexts, n)
      invariant Referenced(copyConf, raw)
    {
      assert names[..i + 1] == names[..i] + [names[i]];
      assert names[i] !in names[..i];
      copyConf := Visit(copyConf, raw, aContextMap, allowedContexts, names[..i], names[i]);
    }
    assert names[..|names|] == names;
  }

  /**
   * `stripAndValidateClientContexts`: the stripped configuration, unless `validate` (for
   * `clientcmd.Validate`) rejects it.
   */
  method StripAndValidateClientContexts<C, A>(raw: Config<C, A>, currentContext: string, allowedContexts: seq<string>,
                                              validate: Config<C, A> -> Option<string>)
    returns (r: Result<Config<C, A>, string>)
    ensures exists out :: && StrippedFrom(out, raw, currentContext, allowedContexts)
                          && r == (if validate(out).Some? then Failure(validate(out).value) else Success(out))
  {
    var copyConf := StripContexts(raw, currentContext, allowedContexts);
    var err := validate(copyConf);
    if err.Some? {
      return Failure(err.value);
    }
    return Success(copyConf);
  }

  datatype HostError =
    | NoCurrentContext            // could not detect current context: at least one context must be specified
    | ValidationFailed(message: string)

  /** The context used: the requested one, or the configuration's current context when none is requested. */
  function SelectedContext<C, A>(raw: Config<C, A>, context: string): string
  {
    if context == "" then raw.currentContext else context
  }

  /**
   * The context handling of `GetClientCmdFromHost` on the loaded configuration `raw`: fail
   * when no context is requested and none is current, otherwise strip `raw` to the selected
   * context alone.
   */
  method GetClientCmdFromHost<C, A>(raw: Config<C, A>, context: string, validate: Config<C, A> -> Option<string>)
    returns (r: Result<Config<C, A>, HostError>)
    ensures context == "" && raw.currentContext == "" ==> r == Failure(NoCurrentContext)
    ensures SelectedContext(raw, context) != "" ==> exists out ::
      && StrippedFrom(out, raw, SelectedContext(raw, context), [SelectedContext(raw, context)])
      && r == (if validate(out).Some? then Failure(ValidationFailed(validate(out).value)) else Success(out))
    ensures r.Success? ==> && SelectedContext(raw, context) != ""
                           && StrippedFrom(r.value, raw, SelectedContext(raw, context), [SelectedContext(raw, context)])
                           && validate(r.value).None?
    ensures r.Failure? && r.error.ValidationFailed? ==> exists out ::
      StrippedFrom(out, raw, SelectedContext(raw, context), [SelectedContext(raw, context)]) &&
      validate(out) == Some(r.error.message)
  {
    var context := context;
    if context == "" {
      if raw.currentContext == "" {
        return Failure(NoCurrentContext);
      }
      context := raw.currentContext;
    }
    var conf := StripAndValidateClientContexts(raw, context, [context], validate);
    match conf {
      case Success(c) => return Success(c);
      case Failure(e) => return Failure(ValidationFailed(e));
    }
  }

  /** Allowing only the selected context leaves at most that one context, and it is current. */
  lemma OnlySelectedSurvives<C, A>(out: Config<C, A>, raw: Config<C, A>, selected: string)
    requires StrippedFrom(out, raw, selected, [selected])
    ensures out.contexts.Keys <= {selected}
    ensures selected in out.contexts <==> Kept(raw, [selected], selected)
    ensures out.currentContext == selected
  {
  }
}
