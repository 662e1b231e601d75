/** Merging configurations and profiles: associativity, idempotence, and the keyed upsert. */
module ConfigMerge {
  import opened Text
  import opened Lists
  import opened ConfigTypes

  // ---------------------------------------------------------------------------------------------
  // Settings form a band: merging is associative and idempotent
  // ---------------------------------------------------------------------------------------------

  lemma ModelRoutingBand(a: ModelRouting, b: ModelRouting, c: ModelRouting)
    ensures MergedModelRouting(MergedModelRouting(a, b), c) == MergedModelRouting(a, MergedModelRouting(b, c))
    ensures MergedModelRouting(a, a) == a
  {
    AppendUniqueAssociative(a.gateway.secretRefs, b.gateway.secretRefs, c.gateway.secretRefs);
    AppendUniqueAssociative(a.directProviderSecretRefs, b.directProviderSecretRefs, c.directProviderSecretRefs);
    AppendUniqueIdempotent(a.gateway.secretRefs, []);
    AppendUniqueIdempotent(a.directProviderSecretRefs, []);
  }

  lemma WebSearchRoutingBand(a: WebSearchRouting, b: WebSearchRouting, c: WebSearchRouting)
    ensures MergedWebSearchRouting(MergedWebSearchRouting(a, b), c) ==
      MergedWebSearchRouting(a, MergedWebSearchRouting(b, c))
    ensures MergedWebSearchRouting(a, a) == a
  {
    AppendUniqueAssociative(a.secretRefs, b.secretRefs, c.secretRefs);
    AppendUniqueAssociative(a.requiredCapabilities, b.requiredCapabilities, c.requiredCapabilities);
    AppendUniqueAssociative(a.requiredModelFeatures, b.requiredModelFeatures, c.requiredModelFeatures);
    AppendUniqueIdempotent(a.secretRefs, []);
    AppendUniqueIdempotent(a.requiredCapabilities, []);
    AppendUniqueIdempotent(a.requiredModelFeatures, []);
  }

  lemma LocalDeployBand(a: LocalDeploy, b: LocalDeploy, c: LocalDeploy)
    ensures MergedLocalDeploy(MergedLocalDeploy(a, b), c) == MergedLocalDeploy(a, MergedLocalDeploy(b, c))
    ensures MergedLocalDeploy(a, a) == a
  {
    AppendUniqueAssociative(a.envFiles, b.envFiles, c.envFiles);
    AppendUniqueAssociative(a.profiles, b.profiles, c.profiles);
    AppendUniqueIdempotent(a.envFiles, []);
    AppendUniqueIdempotent(a.profiles, []);
  }

  lemma KubernetesBand(a: Kubernetes, b: Kubernetes, c: Kubernetes)
    ensures MergedKubernetes(MergedKubernetes(a, b), c) == MergedKubernetes(a, MergedKubernetes(b, c))
    ensures MergedKubernetes(a, a) == a
  {
    KubernetesAssociative(a, b, c);
    AppendUniqueIdempotent(a.helmValues, []);
  }

  lemma KubernetesAssociative(a: Kubernetes, b: Kubernetes, c: Kubernetes)
    ensures MergedKubernetes(MergedKubernetes(a, b), c) == MergedKubernetes(a, MergedKubernetes(b, c))
  {
    AppendUniqueAssociative(a.helmValues, b.helmValues, c.helmValues);
    var left, right := MergedKubernetes(MergedKubernetes(a, b), c), MergedKubernetes(a, MergedKubernetes(b, c));
    assert left.distribution == right.distribution;
    assert left.kubectl == right.kubectl;
    assert left.context == right.context;
    assert left.kubeconfig == right.kubeconfig;
    assert left.namespace == right.namespace;
    assert left.manifest == right.manifest;
    assert left.renderedManifest == right.renderedManifest;
    assert left.helmRelease == right.helmRelease;
    assert left.helmChart == right.helmChart;
    assert left.imageRegistry == right.imageRegistry;
    assert left.serviceAccount == right.serviceAccount;
    assert left.secretProvider == right.secretProvider;
    assert left.workloadIdentity == right.workloadIdentity;
    assert left.objectStore == right.objectStore;
  }

  lemma RunnerCapacityBand(a: RunnerCapacity, b: RunnerCapacity, c: RunnerCapacity)
    ensures MergedRunnerCapacity(MergedRunnerCapacity(a, b), c) == MergedRunnerCapacity(a, MergedRunnerCapacity(b, c))
    ensures MergedRunnerCapacity(a, a) == a
  {
    assert a.lanePolicies + b.lanePolicies + c.lanePolicies == a.lanePolicies + (b.lanePolicies + c.lanePolicies);
    assert a.lanePolicies + a.lanePolicies == a.lanePolicies;
  }

  lemma ServiceEndpointsBand(a: ServiceEndpoints, b: ServiceEndpoints, c: ServiceEndpoints)
    ensures MergedServiceEndpoints(MergedServiceEndpoints(a, b), c) ==
      MergedServiceEndpoints(a, MergedServiceEndpoints(b, c))
    ensures MergedServiceEndpoints(a, a) == a
  {
  }

  lemma CloudBand(a: Cloud, b: Cloud, c: Cloud)
    ensures MergedCloud(MergedCloud(a, b), c) == MergedCloud(a, MergedCloud(b, c))
    ensures MergedCloud(a, a) == a
  {
  }

  lemma SettingsBand(a: Settings, b: Settings, c: Settings)
    ensures MergedSettings(MergedSettings(a, b), c) == MergedSettings(a, MergedSettings(b, c))
    ensures MergedSettings(a, a) == a
  {
    SettingsAssociative(a, b, c);
    ModelRoutingBand(a.modelRouting, a.modelRouting, a.modelRouting);
    LocalDeployBand(a.localDeploy, a.localDeploy, a.localDeploy);
    RunnerCapacityBand(a.runnerCapacity, a.runnerCapacity, a.runnerCapacity);
    KubernetesBand(a.kubernetes, a.kubernetes, a.kubernetes);
    ServiceEndpointsBand(a.serviceEndpoints, a.serviceEndpoints, a.serviceEndpoints);
    CloudBand(a.cloud, a.cloud, a.cloud);
  }

  lemma SettingsAssociative(a: Settings, b: Settings, c: Settings)
    ensures MergedSettings(MergedSettings(a, b), c) == MergedSettings(a, MergedSettings(b, c))
  {
    ModelRoutingBand(a.modelRouting, b.modelRouting, c.modelRouting);
    LocalDeployBand(a.localDeploy, b.localDeploy, c.localDeploy);
    RunnerCapacityBand(a.runnerCapacity, b.runnerCapacity, c.runnerCapacity);
    KubernetesBand(a.kubernetes, b.kubernetes, c.kubernetes);
    ServiceEndpointsBand(a.serviceEndpoints, b.serviceEndpoints, c.serviceEndpoints);
    CloudBand(a.cloud, b.cloud, c.cloud);
  }

  lemma ProfileBand(a: Profile, b: Profile, c: Profile)
    ensures MergedProfile(MergedProfile(a, b), c) == MergedProfile(a, MergedProfile(b, c))
    ensures MergedProfile(a, a) == a
  {
    SettingsBand(a.settings, b.settings, c.settings);
  }

  // ---------------------------------------------------------------------------------------------
  // Profiles are merged by name
  // ---------------------------------------------------------------------------------------------

  /** Index of the first profile with the name, or the length when there is none. */
  function IndexOfProfile(profiles: seq<Profile>, name: string): (i: nat)
    ensures i <= |profiles|
    ensures i < |profiles| ==> profiles[i].name == name
    ensures forall k :: 0 <= k < i ==> profiles[k].name != name
  {
    if profiles == [] || profiles[0].name == name then 0 else 1 + IndexOfProfile(profiles[1..], name)
  }

  function UpsertOne(profiles: seq<Profile>, p: Profile): seq<Profile> {
    var i := IndexOfProfile(profiles, p.name);
    if i < |profiles| then profiles[i := MergedProfile(profiles[i], p)] else profiles + [p]
  }

  function Upsert(base: seq<Profile>, overlay: seq<Profile>): seq<Profile> {
    if overlay == [] then base
    else UpsertOne(Upsert(base, overlay[..|overlay| - 1]), overlay[|overlay| - 1])
  }

  function Names(profiles: seq<Profile>): seq<string> {
    seq(|profiles|, i requires 0 <= i < |profiles| => profiles[i].name)
  }

  /** The search for an existing profile of the name. */
  method PositionOf(profiles: seq<Profile>, name: string) returns (i: nat)
    ensures i == IndexOfProfile(profiles, name)
  {
    i := 0;
    while i < |profiles| && profiles[i].name != name
      invariant i <= |profiles|
      invariant forall k :: 0 <= k < i ==> profiles[k].name != name
    {
      i := i + 1;
    }
    IndexUnique(profiles, name, i);
  }

  method MergeProfileConfigs(base: seq<Profile>, overlay: seq<Profile>) returns (profiles: seq<Profile>)
    ensures profiles == Upsert(base, overlay)
  {
    profiles := base;
    assert overlay[..0] == [];
    for n := 0 to |overlay|
      invariant profiles == Upsert(base, overlay[..n])
    {
      UpsertStep(base, overlay[..n], overlay[n]);
      assert overlay[..n + 1] == overlay[..n] + [overlay[n]];
      var p := overlay[n];
      var i := PositionOf(profiles, p.name);
      if i < |profiles| {
        profiles := profiles[i := MergedProfile(profiles[i], p)];
      } else {
        profiles := profiles + [p];
      }
    }
    assert overlay[..|overlay|] == overlay;
  }

  lemma UpsertStep(base: seq<Profile>, overlay: seq<Profile>, p: Profile)
    ensures Upsert(base, overlay + [p]) == UpsertOne(Upsert(base, overlay), p)
  {
    assert (overlay + [p])[..|overlay|] == overlay;
  }

  lemma SnocConcat<T>(a: seq<T>, b: seq<T>)
    requires b != []
    ensures b == b[..|b| - 1] + [b[|b| - 1]]
    ensures a + b == (a + b[..|b| - 1]) + [b[|b| - 1]]
  {
  }

  lemma {:induction false} UpsertConcat(base: seq<Profile>, a: seq<Profile>, b: seq<Profile>)
    ensures Upsert(base, a + b) == Upsert(Upsert(base, a), b)
  {
    if b == [] {
      assert a + b == a;
    } else {
      var init, p := b[..|b| - 1], b[|b| - 1];
      UpsertConcat(base, a, init);
      SnocConcat(a, b);
      UpsertStep(base, a + init, p);
      UpsertStep(Upsert(base, a), init, p);
    }
  }

  lemma UpsertOneNames(profiles: seq<Profile>, p: Profile)
    ensures Names(UpsertOne(profiles, p)) == AppendOne(Names(profiles), p.name)
  {
    var i := IndexOfProfile(profiles, p.name);
    assert forall k :: 0 <= k < |profiles| ==> Names(profiles)[k] == profiles[k].name;
    if i < |profiles| {
      assert Names(profiles)[i] == p.name;
      assert Names(UpsertOne(profiles, p)) == Names(profiles);
    } else {
      assert p.name !in Names(profiles);
      assert Names(UpsertOne(profiles, p)) == Names(profiles) + [p.name];
    }
  }

  /** The names after an upsert are the names before with the new ones appended in the order of
      their first appearance; so distinct names stay distinct. */
  lemma UpsertNames(base: seq<Profile>, overlay: seq<Profile>)
    ensures Names(Upsert(base, overlay)) == AppendUnique(Names(base), Names(overlay))
    ensures AreDistinct(Names(base)) ==> AreDistinct(Names(Upsert(base, overlay)))
  {
    UpsertedNames(base, overlay);
    AppendUniqueContents(Names(base), Names(overlay));
  }

  lemma {:induction false} UpsertedNames(base: seq<Profile>, overlay: seq<Profile>)
    ensures Names(Upsert(base, overlay)) == AppendUnique(Names(base), Names(overlay))
  {
    if overlay == [] {
      assert Names(overlay) == [];
    } else {
      var init, p := overlay[..|overlay| - 1], overlay[|overlay| - 1];
      UpsertedNames(base, init);
      UpsertOneNames(Upsert(base, init), p);
      assert Names(overlay) == Names(init) + [p.name];
      AppendUniqueStep(Names(base), Names(init), p.name);
    }
  }

  lemma IndexUnique(profiles: seq<Profile>, name: string, i: nat)
    requires i <= |profiles| && (i < |profiles| ==> profiles[i].name == name)
    requires forall k :: 0 <= k < i ==> profiles[k].name != name
    ensures IndexOfProfile(profiles, name) == i
  {
  }

  /** Two profiles of one name, merged one after the other, are merged as their merge. */
  lemma UpsertTwice(profiles: seq<Profile>, p: Profile, r: Profile)
    requires p.name == r.name
    ensures UpsertOne(UpsertOne(profiles, p), r) == UpsertOne(profiles, MergedProfile(p, r))
  {
    var i := IndexOfProfile(profiles, p.name);
    IndexUnique(UpsertOne(profiles, p), p.name, i);
    if i < |profiles| {
      ProfileBand(profiles[i], p, r);
    }
  }

  /** Storing a merged profile in its place; what `UpsertOne` does when the name is there. */
  lemma UpsertOneAt(profiles: seq<Profile>, p: Profile, i: nat)
    requires i < |profiles| && profiles[i].name == p.name
    requires forall k :: 0 <= k < i ==> profiles[k].name != p.name
    ensures UpsertOne(profiles, p) == profiles[i := MergedProfile(profiles[i], p)]
  {
    IndexUnique(profiles, p.name, i);
  }

  lemma UpsertCommutesInside(profiles: seq<Profile>, p: Profile, r: Profile, i: nat, j: nat)
    requires i != j && i < |profiles| && j < |profiles| && profiles[i].name == p.name && profiles[j].name == r.name
    requires forall k :: 0 <= k < i ==> profiles[k].name != p.name
    requires forall k :: 0 <= k < j ==> profiles[k].name != r.name
    ensures UpsertOne(UpsertOne(profiles, r), p) ==
      profiles[j := MergedProfile(profiles[j], r)][i := MergedProfile(profiles[i], p)]
  {
    UpsertOneAt(profiles, r, j);
    UpsertOneAt(profiles[j := MergedProfile(profiles[j], r)], p, i);
  }

  lemma SwapUpdates<T>(s: seq<T>, i: nat, x: T, j: nat, y: T)
    requires i != j && i < |s| && j < |s|
    ensures s[i := x][j := y] == s[j := y][i := x]
  {
  }

  lemma UpsertCommutesOutside(profiles: seq<Profile>, p: Profile, r: Profile, i: nat)
    requires p.name != r.name && i < |profiles| && profiles[i].name == p.name
    requires forall k :: 0 <= k < i ==> profiles[k].name != p.name
    requires forall k :: 0 <= k < |profiles| ==> profiles[k].name != r.name
    ensures UpsertOne(UpsertOne(profiles, r), p) == UpsertOne(UpsertOne(profiles, p), r)
  {
    IndexUnique(profiles, r.name, |profiles|);
    UpsertOneAt(profiles, p, i);
    UpsertOneAt(profiles + [r], p, i);
    var withP := UpsertOne(profiles, p);
    IndexUnique(withP, r.name, |withP|);
  }

  /** Profiles of different names can be merged in either order when one of them is there. */
  lemma UpsertCommutes(profiles: seq<Profile>, p: Profile, r: Profile)
    requires p.name != r.name && IndexOfProfile(profiles, p.name) < |profiles|
    ensures UpsertOne(UpsertOne(profiles, r), p) == UpsertOne(UpsertOne(profiles, p), r)
  {
    var i, j := IndexOfProfile(profiles, p.name), IndexOfProfile(profiles, r.name);
    if j < |profiles| {
      UpsertCommutesInside(profiles, p, r, i, j);
      UpsertCommutesInside(profiles, r, p, j, i);
      SwapUpdates(profiles, i, MergedProfile(profiles[i], p), j, MergedProfile(profiles[j], r));
    } else {
      UpsertCommutesOutside(profiles, p, r, i);
    }
  }

  lemma UpsertOnePresent(profiles: seq<Profile>, p: Profile, name: string)
    requires IndexOfProfile(profiles, name) < |profiles| || p.name == name
    ensures IndexOfProfile(UpsertOne(profiles, p), name) < |UpsertOne(profiles, p)|
  {
    var i := IndexOfProfile(profiles, p.name);
    var next := UpsertOne(profiles, p);
    assert i < |next| && next[i].name == p.name;
    if p.name != name {
      var k := IndexOfProfile(profiles, name);
      assert next[k].name == name;
    }
  }

  lemma {:induction false} UpsertPresent(profiles: seq<Profile>, overlay: seq<Profile>, name: string)
    requires IndexOfProfile(profiles, name) < |profiles|
    ensures IndexOfProfile(Upsert(profiles, overlay), name) < |Upsert(profiles, overlay)|
  {
    if overlay != [] {
      UpsertPresent(profiles, overlay[..|overlay| - 1], name);
      UpsertOnePresent(Upsert(profiles, overlay[..|overlay| - 1]), overlay[|overlay| - 1], name);
    }
  }

  /** A profile that is there can be merged before or after a list without its name. */
  lemma {:induction false} UpsertPasses(profiles: seq<Profile>, tail: seq<Profile>, p: Profile)
    requires IndexOfProfile(profiles, p.name) < |profiles|
    requires forall k :: 0 <= k < |tail| ==> tail[k].name != p.name
    ensures UpsertOne(Upsert(profiles, tail), p) == Upsert(UpsertOne(profiles, p), tail)
  {
    if tail != [] {
      var init, r := tail[..|tail| - 1], tail[|tail| - 1];
      UpsertPasses(profiles, init, p);
      UpsertPresent(profiles, init, p.name);
      UpsertCommutes(Upsert(profiles, init), p, r);
    }
  }

  /** Merging into the overlay first or after the overlay is the same for one more profile. */
  lemma UpsertOneAssociative(a: seq<Profile>, b: seq<Profile>, p: Profile)
    requires AreDistinct(Names(b))
    ensures Upsert(a, UpsertOne(b, p)) == UpsertOne(Upsert(a, b), p)
  {
    var i := IndexOfProfile(b, p.name);
    if i == |b| {
      UpsertStep(a, b, p);
    } else {
      forall k | i < k < |b| ensures b[k].name != p.name {
        assert Names(b)[i] != Names(b)[k];
      }
      SplitAt(b, i, MergedProfile(b[i], p));
      UpsertInside(a, b[..i], b[i], b[i + 1..], p);
    }
  }

  lemma SplitAt(b: seq<Profile>, i: nat, x: Profile)
    requires i < |b|
    ensures b == (b[..i] + [b[i]]) + b[i + 1..]
    ensures b[i := x] == (b[..i] + [x]) + b[i + 1..]
  {
  }

  lemma UpsertInside(a: seq<Profile>, head: seq<Profile>, q: Profile, tail: seq<Profile>, p: Profile)
    requires q.name == p.name && forall k :: 0 <= k < |tail| ==> tail[k].name != p.name
    ensures Upsert(a, (head + [MergedProfile(q, p)]) + tail) == UpsertOne(Upsert(a, (head + [q]) + tail), p)
  {
    UpsertConcat(a, head + [q], tail);
    UpsertConcat(a, head + [MergedProfile(q, p)], tail);
    UpsertStep(a, head, q);
    UpsertStep(a, head, MergedProfile(q, p));
    UpsertTwice(Upsert(a, head), q, p);
    UpsertOnePresent(Upsert(a, head), q, p.name);
    UpsertPasses(Upsert(a, head + [q]), tail, p);
  }

  /** The keyed upsert is associative when the middle layer names no profile twice. */
  lemma {:induction false} UpsertAssociative(a: seq<Profile>, b: seq<Profile>, c: seq<Profile>)
    requires AreDistinct(Names(b))
    ensures Upsert(Upsert(a, b), c) == Upsert(a, Upsert(b, c))
  {
    if c != [] {
      var init, p := c[..|c| - 1], c[|c| - 1];
      UpsertAssociative(a, b, init);
      UpsertNames(b, init);
      UpsertOneAssociative(a, Upsert(b, init), p);
    }
  }

  /** Distinct profiles merged into themselves stay as they are. */
  lemma UpsertSelf(d: seq<Profile>)
    requires AreDistinct(Names(d))
    ensures Upsert(d, d) == d
  {
    forall k | 0 <= k < |d| ensures UpsertOne(d, d[k]) == d {
      UpsertOwn(d, k);
    }
    UpsertFixed(d, d);
  }

  lemma {:induction false} UpsertFixed(d: seq<Profile>, overlay: seq<Profile>)
    requires forall k :: 0 <= k < |overlay| ==> UpsertOne(d, overlay[k]) == d
    ensures Upsert(d, overlay) == d
  {
    if overlay != [] {
      UpsertFixed(d, overlay[..|overlay| - 1]);
    }
  }

  lemma UpsertOwn(d: seq<Profile>, k: nat)
    requires AreDistinct(Names(d)) && k < |d|
    ensures UpsertOne(d, d[k]) == d
  {
    forall j | 0 <= j < k ensures d[j].name != d[k].name {
      assert Names(d)[j] != Names(d)[k];
    }
    IndexUnique(d, d[k].name, k);
    ProfileBand(d[k], d[k], d[k]);
  }

  /** Merging the same profiles a second time changes nothing, even if they repeat a name. */
  lemma UpsertIdempotent(a: seq<Profile>, o: seq<Profile>)
    ensures Upsert(Upsert(a, o), o) == Upsert(a, o)
  {
    var d := Upsert([], o);
    UpsertNames([], o);
    UpsertAssociative(a, [], o);
    UpsertAssociative(Upsert(a, o), [], o);
    UpsertAssociative(a, d, d);
    UpsertSelf(d);
  }

  // ---------------------------------------------------------------------------------------------
  // Whole configurations
  // ---------------------------------------------------------------------------------------------

  function MergedConfig(base: Config, overlay: Config): Config {
    Config(
      ReplaceIfSome(base.activeProfile, overlay.activeProfile),
      Upsert(base.profiles, overlay.profiles),
      MergedWebSearchRouting(base.toolRouting, overlay.toolRouting),
      MergedSettings(base.settings, overlay.settings))
  }

  lemma MergeAssociative(a: Config, b: Config, c: Config)
    requires AreDistinct(Names(b.profiles))
    ensures MergedConfig(MergedConfig(a, b), c) == MergedConfig(a, MergedConfig(b, c))
  {
    UpsertAssociative(a.profiles, b.profiles, c.profiles);
    WebSearchRoutingBand(a.toolRouting, b.toolRouting, c.toolRouting);
    SettingsBand(a.settings, b.settings, c.settings);
  }

  lemma MergeIdempotent(base: Config, overlay: Config)
    ensures MergedConfig(MergedConfig(base, overlay), overlay) == MergedConfig(base, overlay)
  {
    UpsertIdempotent(base.profiles, overlay.profiles);
    WebSearchRoutingBand(base.toolRouting, overlay.toolRouting, overlay.toolRouting);
    WebSearchRoutingBand(overlay.toolRouting, overlay.toolRouting, overlay.toolRouting);
    SettingsBand(base.settings, overlay.settings, overlay.settings);
    SettingsBand(overlay.settings, overlay.settings, overlay.settings);
  }

  // ---------------------------------------------------------------------------------------------
  // Why the middle layer's names have to be distinct
  // ---------------------------------------------------------------------------------------------

  /** The kind of the last profile with the name. */
  function LastKind(profiles: seq<Profile>, name: string): Option<string> {
    if profiles == [] then None
    else
      var last := profiles[|profiles| - 1];
      if last.name == name then Some(last.kind) else LastKind(profiles[..|profiles| - 1], name)
  }

  function FirstKind(profiles: seq<Profile>, name: string): Option<string> {
    var i := IndexOfProfile(profiles, name);
    if i < |profiles| then Some(profiles[i].kind) else None
  }

  lemma UpsertOneKind(profiles: seq<Profile>, p: Profile, name: string)
    ensures FirstKind(UpsertOne(profiles, p), name) ==
      if p.name == name then Some(p.kind) else FirstKind(profiles, name)
  {
    var i, k := IndexOfProfile(profiles, p.name), IndexOfProfile(profiles, name);
    if p.name == name || k < |profiles| {
      IndexUnique(UpsertOne(profiles, p), name, k);
    } else {
      IndexUnique(UpsertOne(profiles, p), name, |UpsertOne(profiles, p)|);
    }
  }

  /** The merged kind is the last one the overlay gives. */
  lemma {:induction false} UpsertKind(base: seq<Profile>, overlay: seq<Profile>, name: string)
    ensures FirstKind(Upsert(base, overlay), name) == ReplaceIfSome(FirstKind(base, name), LastKind(overlay, name))
  {
    if overlay != [] {
      UpsertKind(base, overlay[..|overlay| - 1], name);
      UpsertOneKind(Upsert(base, overlay[..|overlay| - 1]), overlay[|overlay| - 1], name);
    }
  }

  lemma {:induction false} LastKindIgnoresEarlier(profiles: seq<Profile>, i: nat, j: nat, q: Profile, name: string)
    requires i < j < |profiles| && profiles[j].name == name
    ensures LastKind(profiles[i := q], name) == LastKind(profiles, name)
  {
    var n := |profiles| - 1;
    if profiles[n].name != name {
      assert profiles[i := q][..n] == profiles[..n][i := q];
      LastKindIgnoresEarlier(profiles[..n], i, j, q, name);
    }
  }

  /** When the middle layer repeats a name, an overlay that gives that profile another kind tells
      the two groupings apart. */
  lemma RepeatedNameBreaksAssociativity(b: seq<Profile>, i: nat, j: nat, p: Profile)
    requires i < j < |b| && b[i].name == b[j].name == p.name
    requires LastKind(b, p.name) != Some(p.kind)
    ensures Upsert(Upsert([], b), [p]) != Upsert([], Upsert(b, [p]))
  {
    var first := IndexOfProfile(b, p.name);
    assert [p][..0] == [] && Upsert(b, [p]) == UpsertOne(b, p);
    UpsertKind(Upsert([], b), [p], p.name);
    assert FirstKind(Upsert(Upsert([], b), [p]), p.name) == Some(p.kind);
    LastKindIgnoresEarlier(b, first, j, MergedProfile(b[first], p), p.name);
    UpsertKind([], UpsertOne(b, p), p.name);
    LastKindIsSome(b, j);
  }

  lemma {:induction false} LastKindIsSome(profiles: seq<Profile>, j: nat)
    requires j < |profiles|
    ensures LastKind(profiles, profiles[j].name).Some?
  {
    if j < |profiles| - 1 {
      LastKindIsSome(profiles[..|profiles| - 1], j);
    }
  }

  /** Merging is associative around a middle layer exactly when that layer names no profile
      twice. */
  lemma MergeAssociativeIff(b: Config)
    ensures (forall a, c :: MergedConfig(MergedConfig(a, b), c) == MergedConfig(a, MergedConfig(b, c)))
      <==> AreDistinct(Names(b.profiles))
  {
    if AreDistinct(Names(b.profiles)) {
      forall a, c ensures MergedConfig(MergedConfig(a, b), c) == MergedConfig(a, MergedConfig(b, c)) {
        MergeAssociative(a, b, c);
      }
    } else {
      var i, j :| 0 <= i < j < |Names(b.profiles)| && Names(b.profiles)[i] == Names(b.profiles)[j];
      var last := LastKind(b.profiles, b.profiles[j].name);
      var p := b.profiles[j].(kind := if last == Some("a") then "b" else "a");
      RepeatedNameBreaksAssociativity(b.profiles, i, j, p);
      var a, c := b.(profiles := []), b.(profiles := [p]);
      assert MergedConfig(MergedConfig(a, b), c).profiles == Upsert(Upsert([], b.profiles), [p]);
      assert MergedConfig(a, MergedConfig(b, c)).profiles == Upsert([], Upsert(b.profiles, [p]));
    }
  }
}
