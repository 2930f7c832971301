/** What overlapping reloads can do to the agreement of the checkers with the cell, exactly. */
module DaemonOverlap {
  import opened Wrappers
  import opened Config
  import opened ConfigOps
  import opened Egress
  import opened Tunnel
  import opened Reload
  import opened Daemon
  import opened DaemonRuns
  import opened DaemonFrames
  import opened DaemonConfig
  import opened DaemonTheorems

  /** The actions that load no file but these. */
  function LoadsFrom(files: set<ConfigFile>): Action -> bool {
    (a: Action) => a.ReloadLoad? ==> a.file in files
  }

  /** What a file asks of the two checkers of a daemon started on `startup`. */
  function Asks(lib: Lib, startup: Config, file: ConfigFile): (Option<Settings>, Option<TunnelState>)
    requires LoadConfig(file).Success?
  {
    var c := Effective(startup, LoadConfig(file).value);
    (SettingsOf(lib, c), TunnelOf(lib, c))
  }

  /** No reload is between its first write and its last. */
  predicate Settled(d: State) {
    forall id <- d.reloads :: !Touching(d.reloads[id])
  }

  /** All the files that reloads accept ask for the same. */
  predicate Unanimous(lib: Lib, startup: Config, files: set<ConfigFile>) {
    forall f, g | f in files && g in files && ReloadAccepts(lib, f) && ReloadAccepts(lib, g) ::
      Asks(lib, startup, f) == Asks(lib, startup, g)
  }

  // ----- files that ask for the same ----------------------------------------------------

  /** All the files that reloads accept ask for these. */
  predicate AllAsk(lib: Lib, startup: Config, files: set<ConfigFile>, s: Settings, t: TunnelState) {
    forall f <- files | ReloadAccepts(lib, f) :: Asks(lib, startup, f) == (Some(s), Some(t))
  }

  /** A reload that can succeed asks for these. */
  predicate Carries(lib: Lib, startup: Config, pc: ReloadPc, s: Settings, t: TunnelState) {
    Touching(pc) || lib.urlParses(pc.loaded.probeURL) ==>
      var c := Effective(startup, pc.loaded);
      SettingsOf(lib, c) == Some(s) && TunnelOf(lib, c) == Some(t)
  }

  predicate AllCarry(lib: Lib, d: State, s: Settings, t: TunnelState) {
    forall id <- d.reloads :: Carries(lib, d.startup, d.reloads[id], s, t)
  }

  /** Before the first installation: agreement as long as nothing is touched, and what is touched holds what is asked for. */
  predicate BeforeInstall(lib: Lib, d: State, s: Settings, t: TunnelState) {
    && (Settled(d) ==> Agrees(lib, d.live, d.eg.settings, d.tc))
    && (forall id <- d.reloads | Touching(d.reloads[id]) :: d.eg.settings == s)
    && (forall id <- d.reloads | d.reloads[id].TunnelDone? :: d.tc == t)
  }

  /** After it everything holds what is asked for, even while reloads are half done. */
  predicate AfterInstalled(lib: Lib, d: State, s: Settings, t: TunnelState) {
    !d.shared && d.eg.settings == s && d.tc == t && Agrees(lib, d.live, s, t)
  }

  ghost predicate Uniform(lib: Lib, d: State, s: Settings, t: TunnelState) {
    AllCarry(lib, d, s, t) && (BeforeInstall(lib, d, s, t) || AfterInstalled(lib, d, s, t))
  }

  lemma UniformKept(lib: Lib, d: State, n: State, s: Settings, t: TunnelState)
    requires Uniform(lib, d, s, t) && SameConfiguration(d, n)
    ensures Uniform(lib, n, s, t)
  {
  }

  /** What a reload under way has set aside is the effective configuration, which is readable. */
  lemma EffectiveCarried(lib: Lib, d: State, id: nat)
    requires WiringInv(lib, d) && ReloadsInv(lib, d) && id in d.reloads && !d.reloads[id].Loaded?
    ensures var pc := d.reloads[id];
            && pc.effective == Effective(d.startup, pc.loaded)
            && pc.effective.interface == d.tc.iface
            && lib.parseDuration(pc.effective.maxHandshakeAge).Some?
            && (Applicable(lib, pc.effective) <==> lib.urlParses(pc.loaded.probeURL))
  {
    assert ReloadGood(lib, d.startup, d.reloads[id]);
    ValidIsApplicable(lib, d.reloads[id].effective);
  }

  /** A reload that has touched nothing yet may come, move on or go. */
  lemma UniformApart(lib: Lib, d: State, n: State, s: Settings, t: TunnelState)
    requires Uniform(lib, d, s, t)
    requires n.startup == d.startup && n.live == d.live && n.shared == d.shared
    requires n.eg.settings == d.eg.settings && n.tc == d.tc
    requires SameTouching(d.reloads, n.reloads) && AllCarry(lib, n, s, t)
    ensures Uniform(lib, n, s, t)
  {
    if BeforeInstall(lib, d, s, t) {
      assert Settled(n) <==> Settled(d);
    }
  }

  /** The reloads that have begun to touch the checkers are the same. */
  predicate SameTouching(a: map<nat, ReloadPc>, b: map<nat, ReloadPc>) {
    && (forall i <- a | Touching(a[i]) :: i in b && b[i] == a[i])
    && (forall i <- b | Touching(b[i]) :: i in a && a[i] == b[i])
  }

  lemma UniformRefused(lib: Lib, d: State, n: State, id: nat, s: Settings, t: TunnelState)
    requires Uniform(lib, d, s, t) && id in d.reloads && !Touching(d.reloads[id]) && n == d.(reloads := d.reloads - {id})
    ensures Uniform(lib, n, s, t)
  {
    assert AllCarry(lib, n, s, t);
    UniformApart(lib, d, n, s, t);
  }

  lemma AskCarried(lib: Lib, startup: Config, file: ConfigFile, s: Settings, t: TunnelState)
    requires LoadConfig(file).Success? && Valid(lib, LoadConfig(file).value) && AllAsk(lib, startup, {file}, s, t)
    ensures Carries(lib, startup, Loaded(LoadConfig(file).value), s, t)
  {
    assert ReloadAccepts(lib, file) ==> Asks(lib, startup, file) == (Some(s), Some(t));
  }

  lemma UniformLoaded(lib: Lib, d: State, n: State, id: nat, c: Config, s: Settings, t: TunnelState)
    requires Uniform(lib, d, s, t) && id !in d.reloads && Carries(lib, d.startup, Loaded(c), s, t)
    requires n == d.(reloads := d.reloads[id := Loaded(c)], overlapped := n.overlapped)
    ensures Uniform(lib, n, s, t)
  {
    assert AllCarry(lib, n, s, t);
    UniformApart(lib, d, n, s, t);
  }

  lemma UniformLoad(lib: Lib, d: State, id: nat, file: ConfigFile, s: Settings, t: TunnelState)
    requires Uniform(lib, d, s, t) && id !in d.reloads && AllAsk(lib, d.startup, {file}, s, t)
    ensures Uniform(lib, AfterLoad(lib, d, id, file), s, t)
  {
    var load := LoadConfig(file);
    if load.Success? && Valid(lib, load.value) {
      AskCarried(lib, d.startup, file, s, t);
      UniformLoaded(lib, d, AfterLoad(lib, d, id, file), id, load.value, s, t);
    }
  }

  lemma UniformPrepare(lib: Lib, d: State, id: nat, s: Settings, t: TunnelState)
    requires Uniform(lib, d, s, t) && id in d.reloads && d.reloads[id].Loaded?
    ensures Uniform(lib, AfterPrepare(d, id), s, t)
  {
    assert Carries(lib, d.startup, d.reloads[id], s, t);
    UniformApart(lib, d, AfterPrepare(d, id), s, t);
  }

  /** A reload writes the egress checker. */
  lemma UniformWritten(lib: Lib, d: State, n: State, id: nat, pc: ReloadPc, s: Settings, t: TunnelState)
    requires Uniform(lib, d, s, t) && pc.EgressDone? && Carries(lib, d.startup, pc, s, t)
    requires n.startup == d.startup && n.tc == d.tc && n.eg.settings == s
    requires n.reloads == d.reloads[id := pc]
    requires !d.shared ==> n.live == d.live && !n.shared
    ensures Uniform(lib, n, s, t)
  {
    assert AllCarry(lib, n, s, t);
    assert n.reloads[id].EgressDone? && !Settled(n);
  }

  lemma UniformApplied(lib: Lib, d: State, id: nat, spare: seq<string>, s: Settings, t: TunnelState)
    requires Uniform(lib, d, s, t) && id in d.reloads && d.reloads[id].Prepared?
    requires Applicable(lib, d.reloads[id].effective) && SettingsOf(lib, d.reloads[id].effective) == Some(s)
    requires lib.urlParses(d.reloads[id].loaded.probeURL)
    ensures Uniform(lib, AfterEgress(lib, d, id, spare), s, t)
  {
    var pc := d.reloads[id];
    assert Carries(lib, d.startup, pc, s, t);
    UniformWritten(lib, d, AfterEgress(lib, d, id, spare), id, EgressDone(pc.loaded, pc.effective, pc.changed), s, t);
  }

  lemma UniformEgress(lib: Lib, d: State, id: nat, spare: seq<string>, s: Settings, t: TunnelState)
    requires WiringInv(lib, d) && ReloadsInv(lib, d)
    requires Uniform(lib, d, s, t) && id in d.reloads && d.reloads[id].Prepared?
    ensures Uniform(lib, AfterEgress(lib, d, id, spare), s, t)
  {
    var pc := d.reloads[id];
    EffectiveCarried(lib, d, id);
    assert Carries(lib, d.startup, pc, s, t);
    if Applicable(lib, pc.effective) {
      UniformApplied(lib, d, id, spare, s, t);
    } else {
      UniformRefused(lib, d, AfterEgress(lib, d, id, spare), id, s, t);
    }
  }

  /** A reload writes the tunnel checker. */
  lemma UniformRetuned(lib: Lib, d: State, n: State, id: nat, pc: ReloadPc, s: Settings, t: TunnelState)
    requires Uniform(lib, d, s, t) && id in d.reloads && d.reloads[id].EgressDone?
    requires pc.TunnelDone? && Carries(lib, d.startup, pc, s, t)
    requires n == d.(tc := t, reloads := d.reloads[id := pc])
    ensures Uniform(lib, n, s, t)
  {
    assert AllCarry(lib, n, s, t);
    assert n.reloads[id].TunnelDone? && !Settled(n);
  }

  lemma UniformTunnel(lib: Lib, d: State, id: nat, s: Settings, t: TunnelState)
    requires WiringInv(lib, d) && ReloadsInv(lib, d)
    requires Uniform(lib, d, s, t) && id in d.reloads && d.reloads[id].EgressDone?
    ensures Uniform(lib, AfterTunnel(lib, d, id), s, t)
  {
    var n := AfterTunnel(lib, d, id);
    EffectiveCarried(lib, d, id);
    assert Carries(lib, d.startup, d.reloads[id], s, t);
    UniformRetuned(lib, d, n, id, n.reloads[id], s, t);
  }

  lemma UniformInstall(lib: Lib, d: State, id: nat, s: Settings, t: TunnelState)
    requires WiringInv(lib, d) && ReloadsInv(lib, d)
    requires Uniform(lib, d, s, t) && id in d.reloads && d.reloads[id].TunnelDone?
    ensures Uniform(lib, AfterInstall(d, id), s, t)
  {
    EffectiveCarried(lib, d, id);
    assert Touching(d.reloads[id]) && Carries(lib, d.startup, d.reloads[id], s, t);
  }

  lemma UniformReload(lib: Lib, d: State, a: Action, files: set<ConfigFile>, s: Settings, t: TunnelState)
    requires WiringInv(lib, d) && ReloadsInv(lib, d) && AllAsk(lib, d.startup, files, s, t)
    requires Uniform(lib, d, s, t) && ReloadEnabled(d, a) && LoadsFrom(files)(a)
    ensures Uniform(lib, ReloadNext(lib, d, a), s, t)
  {
    match a {
      case ReloadLoad(id, file) => UniformLoad(lib, d, id, file, s, t);
      case ReloadPrepare(id) => UniformPrepare(lib, d, id, s, t);
      case ReloadEgress(id, spare) => UniformEgress(lib, d, id, spare, s, t);
      case ReloadTunnel(id) => UniformTunnel(lib, d, id, s, t);
      case ReloadInstall(id) => UniformInstall(lib, d, id, s, t);
    }
  }

  ghost predicate Harmonious(lib: Lib, startup: Config, s: Settings, t: TunnelState, d: State) {
    ConfigInv(lib, d) && d.startup == startup && Uniform(lib, d, s, t)
  }

  lemma HarmonyNext(
    lib: Lib, startup: Config, files: set<ConfigFile>, s: Settings, t: TunnelState, d: State, a: Action)
    requires AllAsk(lib, startup, files, s, t) && Harmonious(lib, startup, s, t, d)
    requires Enabled(d, a) && LoadsFrom(files)(a)
    ensures Harmonious(lib, startup, s, t, Next(lib, d, a))
  {
    if PollEnabled(d, a) {
      PollFrame(d, a);
      ConfigPoll(lib, d, a);
      UniformKept(lib, d, PollNext(d, a), s, t);
    } else if ProbeEnabled(d, a) {
      ProbeFrame(d, a);
      ConfigProbe(lib, d, ProbeNext(d, a));
      UniformKept(lib, d, ProbeNext(d, a), s, t);
    } else {
      ReloadFrame(lib, d, a);
      ConfigReload(lib, d, a);
      UniformReload(lib, d, a, files, s, t);
    }
  }

  ghost function Harmony(lib: Lib, startup: Config, s: Settings, t: TunnelState): State -> bool {
    d => Harmonious(lib, startup, s, t, d)
  }

  lemma HarmonyClosed(lib: Lib, startup: Config, files: set<ConfigFile>, s: Settings, t: TunnelState)
    requires AllAsk(lib, startup, files, s, t)
    ensures Closed(lib, LoadsFrom(files), Harmony(lib, startup, s, t))
  {
    forall d, a | Harmonious(lib, startup, s, t, d) && LoadsFrom(files)(a) && Enabled(d, a)
      ensures Harmonious(lib, startup, s, t, Next(lib, d, a))
    {
      HarmonyNext(lib, startup, files, s, t, d, a);
    }
  }

  /** Where all the files ask for the same, reloads agree however they overlap. */
  lemma SameAskAgrees(lib: Lib, d: State, files: set<ConfigFile>, s: Settings, t: TunnelState, n: State)
    requires ConfigInv(lib, d) && d.reloads == map[] && Agrees(lib, d.live, d.eg.settings, d.tc)
    requires AllAsk(lib, d.startup, files, s, t) && Reaches(lib, LoadsFrom(files), d, n)
    ensures Settled(n) ==> Agrees(lib, n.live, n.eg.settings, n.tc)
  {
    HarmonyClosed(lib, d.startup, files, s, t);
    assert Harmony(lib, d.startup, s, t)(d);
    ReachesKept(lib, LoadsFrom(files), Harmony(lib, d.startup, s, t), d, n);
  }

  lemma CommonAsk(lib: Lib, startup: Config, files: set<ConfigFile>, s0: Settings, t0: TunnelState)
    returns (s: Settings, t: TunnelState)
    requires Unanimous(lib, startup, files) && ValidInterface(startup.interface)
    ensures AllAsk(lib, startup, files, s, t)
  {
    if exists f :: f in files && ReloadAccepts(lib, f) {
      var f :| f in files && ReloadAccepts(lib, f);
      EffectiveValid(lib, startup, LoadConfig(f).value);
      s, t := Asks(lib, startup, f).0.value, Asks(lib, startup, f).1.value;
    } else {
      s, t := s0, t0;
    }
  }

  // ----- files that do not ----------------------------------------------------------------

  /** What the crossing schedule needs to know of a state. */
  ghost predicate At(kept: State -> bool, d: State, startup: Config, s: Settings, t: TunnelState, reloads: map<nat, ReloadPc>) {
    && kept(d) && d.startup == startup && SameWiring(startup, d.live)
    && d.eg.settings == s && d.tc == t && t.iface == startup.interface && d.reloads == reloads
  }

  ghost predicate Here(kept: State -> bool, d: State) {
    At(kept, d, d.startup, d.eg.settings, d.tc, d.reloads)
  }

  lemma KeptByReload(lib: Lib, files: set<ConfigFile>, kept: State -> bool, d: State, a: Action)
    requires Closed(lib, LoadsFrom(files), kept) && kept(d) && ReloadEnabled(d, a) && LoadsFrom(files)(a)
    ensures Next(lib, d, a) == ReloadNext(lib, d, a) && kept(ReloadNext(lib, d, a))
  {
    assert Enabled(d, a);
  }

  lemma LoadStep(lib: Lib, files: set<ConfigFile>, kept: State -> bool, d: State, id: nat, file: ConfigFile) returns (n: State)
    requires Closed(lib, LoadsFrom(files), kept) && Here(kept, d) && id !in d.reloads
    requires file in files && LoadConfig(file).Success? && Valid(lib, LoadConfig(file).value)
    ensures At(kept, n, d.startup, d.eg.settings, d.tc, d.reloads[id := Loaded(LoadConfig(file).value)])
  {
    KeptByReload(lib, files, kept, d, ReloadLoad(id, file));
    n := AfterLoad(lib, d, id, file);
  }

  lemma PrepareStep(lib: Lib, files: set<ConfigFile>, kept: State -> bool, d: State, id: nat, c: Config)
    returns (n: State, keys: seq<Key>)
    requires Closed(lib, LoadsFrom(files), kept) && Here(kept, d) && id in d.reloads && d.reloads[id] == Loaded(c)
    ensures At(kept, n, d.startup, d.eg.settings, d.tc, d.reloads[id := Prepared(c, Effective(d.startup, c), keys)])
  {
    KeptByReload(lib, files, kept, d, ReloadPrepare(id));
    n, keys := AfterPrepare(d, id), DiffOf(d.live, c);
    assert Effective(d.live, c) == Effective(d.startup, c);
  }

  lemma EgressStep(lib: Lib, files: set<ConfigFile>, kept: State -> bool, d: State, id: nat, c: Config, e: Config, keys: seq<Key>)
    returns (n: State)
    requires Closed(lib, LoadsFrom(files), kept) && Here(kept, d) && id in d.reloads && d.reloads[id] == Prepared(c, e, keys)
    requires Applicable(lib, e)
    ensures At(kept, n, d.startup, SettingsOf(lib, e).value, d.tc, d.reloads[id := EgressDone(c, e, keys)])
  {
    KeptByReload(lib, files, kept, d, ReloadEgress(id, []));
    n := AfterEgress(lib, d, id, []);
  }

  lemma TunnelStep(lib: Lib, files: set<ConfigFile>, kept: State -> bool, d: State, id: nat, c: Config, e: Config, keys: seq<Key>)
    returns (n: State)
    requires Closed(lib, LoadsFrom(files), kept) && Here(kept, d) && id in d.reloads && d.reloads[id] == EgressDone(c, e, keys)
    requires TunnelOf(lib, e).Some? && e.interface == d.startup.interface
    ensures At(kept, n, d.startup, d.eg.settings, TunnelOf(lib, e).value, d.reloads[id := TunnelDone(c, e, keys)])
  {
    KeptByReload(lib, files, kept, d, ReloadTunnel(id));
    n := AfterTunnel(lib, d, id);
  }

  lemma InstallStep(lib: Lib, files: set<ConfigFile>, kept: State -> bool, d: State, id: nat, c: Config, e: Config, keys: seq<Key>)
    returns (n: State)
    requires Closed(lib, LoadsFrom(files), kept) && Here(kept, d) && id in d.reloads && d.reloads[id] == TunnelDone(c, e, keys)
    requires SameWiring(d.startup, e)
    ensures At(kept, n, d.startup, d.eg.settings, d.tc, d.reloads - {id}) && n.live == e
  {
    KeptByReload(lib, files, kept, d, ReloadInstall(id));
    n := AfterInstall(d, id);
  }

  /** From loading to just before the egress checker is touched. */
  lemma Begin(lib: Lib, files: set<ConfigFile>, kept: State -> bool, d: State, id: nat, file: ConfigFile)
    returns (n: State, keys: seq<Key>)
    requires Closed(lib, LoadsFrom(files), kept) && Here(kept, d) && id !in d.reloads
    requires file in files && LoadConfig(file).Success? && Valid(lib, LoadConfig(file).value)
    ensures var c := LoadConfig(file).value;
            At(kept, n, d.startup, d.eg.settings, d.tc, d.reloads[id := Prepared(c, Effective(d.startup, c), keys)])
  {
    var c := LoadConfig(file).value;
    var loaded := LoadStep(lib, files, kept, d, id, file);
    n, keys := PrepareStep(lib, files, kept, loaded, id, c);
    assert n.reloads == d.reloads[id := Prepared(c, Effective(d.startup, c), keys)];
  }

  /** What can be installed by this daemon. */
  predicate Installable(lib: Lib, startup: Config, e: Config) {
    Applicable(lib, e) && TunnelOf(lib, e).Some? && SameWiring(startup, e)
  }

  /** Both reloads touch both checkers in one order and the cell in the other. */
  lemma Cross(lib: Lib, files: set<ConfigFile>, kept: State -> bool, d: State,
              b: Config, eb: Config, kb: seq<Key>, c: Config, ec: Config, kc: seq<Key>)
    returns (n: State)
    requires Closed(lib, LoadsFrom(files), kept) && Here(kept, d)
    requires d.reloads == map[0 := Prepared(b, eb, kb), 1 := Prepared(c, ec, kc)]
    requires Installable(lib, d.startup, eb) && Installable(lib, d.startup, ec)
    ensures At(kept, n, d.startup, SettingsOf(lib, ec).value, TunnelOf(lib, ec).value, map[]) && n.live == eb
  {
    var first := EgressStep(lib, files, kept, d, 0, b, eb, kb);
    var second := EgressStep(lib, files, kept, first, 1, c, ec, kc);
    assert second.reloads == map[0 := EgressDone(b, eb, kb), 1 := EgressDone(c, ec, kc)];
    n := CrossedTunnels(lib, files, kept, second, b, eb, kb, c, ec, kc);
  }

  lemma CrossedTunnels(lib: Lib, files: set<ConfigFile>, kept: State -> bool, d: State,
                       b: Config, eb: Config, kb: seq<Key>, c: Config, ec: Config, kc: seq<Key>)
    returns (n: State)
    requires Closed(lib, LoadsFrom(files), kept) && Here(kept, d)
    requires d.reloads == map[0 := EgressDone(b, eb, kb), 1 := EgressDone(c, ec, kc)]
    requires Installable(lib, d.startup, eb) && Installable(lib, d.startup, ec)
    ensures At(kept, n, d.startup, d.eg.settings, TunnelOf(lib, ec).value, map[]) && n.live == eb
  {
    var first := TunnelStep(lib, files, kept, d, 0, b, eb, kb);
    var second := TunnelStep(lib, files, kept, first, 1, c, ec, kc);
    assert second.reloads == map[0 := TunnelDone(b, eb, kb), 1 := TunnelDone(c, ec, kc)];
    n := CrossedInstalls(lib, files, kept, second, b, eb, kb, c, ec, kc);
  }

  lemma CrossedInstalls(lib: Lib, files: set<ConfigFile>, kept: State -> bool, d: State,
                        b: Config, eb: Config, kb: seq<Key>, c: Config, ec: Config, kc: seq<Key>)
    returns (n: State)
    requires Closed(lib, LoadsFrom(files), kept) && Here(kept, d)
    requires d.reloads == map[0 := TunnelDone(b, eb, kb), 1 := TunnelDone(c, ec, kc)]
    requires SameWiring(d.startup, eb) && SameWiring(d.startup, ec)
    ensures At(kept, n, d.startup, d.eg.settings, d.tc, map[]) && n.live == eb
  {
    var first := InstallStep(lib, files, kept, d, 1, c, ec, kc);
    assert first.reloads == map[0 := TunnelDone(b, eb, kb)];
    n := InstallStep(lib, files, kept, first, 0, b, eb, kb);
    assert n.reloads == map[];
  }

  lemma AcceptedInstallable(lib: Lib, startup: Config, file: ConfigFile)
    requires ReloadAccepts(lib, file) && ValidInterface(startup.interface)
    ensures Installable(lib, startup, Effective(startup, LoadConfig(file).value))
  {
    EffectiveValid(lib, startup, LoadConfig(file).value);
  }

  lemma CrossFrom(lib: Lib, files: set<ConfigFile>, kept: State -> bool, d: State, f: ConfigFile, g: ConfigFile) returns (n: State)
    requires Closed(lib, LoadsFrom(files), kept) && Here(kept, d) && d.reloads == map[] && ValidInterface(d.startup.interface)
    requires f in files && g in files && ReloadAccepts(lib, f) && ReloadAccepts(lib, g)
    ensures kept(n) && n.reloads == map[] && n.live == Effective(d.startup, LoadConfig(f).value)
    ensures (Some(n.eg.settings), Some(n.tc)) == Asks(lib, d.startup, g)
  {
    var b, c := LoadConfig(f).value, LoadConfig(g).value;
    var first, kb := Begin(lib, files, kept, d, 0, f);
    var second, kc := Begin(lib, files, kept, first, 1, g);
    AcceptedInstallable(lib, d.startup, f);
    AcceptedInstallable(lib, d.startup, g);
    n := Cross(lib, files, kept, second, b, Effective(d.startup, b), kb, c, Effective(d.startup, c), kc);
  }

  /**
   Two accepted files can be reloaded from any quiet state so that both reloads
   succeed and the checkers end with what one asks for, the cell with the other.
   */
  lemma CrossedReloads(lib: Lib, d: State, files: set<ConfigFile>, f: ConfigFile, g: ConfigFile) returns (n: State)
    requires WiringInv(lib, d) && d.reloads == map[]
    requires f in files && g in files && ReloadAccepts(lib, f) && ReloadAccepts(lib, g)
    ensures Reaches(lib, LoadsFrom(files), d, n) && n.reloads == map[]
    ensures n.live == Effective(d.startup, LoadConfig(f).value)
    ensures (Some(n.eg.settings), Some(n.tc)) == Asks(lib, d.startup, g)
  {
    ReachedClosed(lib, LoadsFrom(files), d);
    ReachesItself(lib, LoadsFrom(files), d);
    n := CrossFrom(lib, files, Reached(lib, LoadsFrom(files), d), d, f, g);
  }

  /**
   The exact condition. From a quiet state in agreement, every schedule of
   reloads of these files, however they overlap and whatever polls and probes
   run in between, is in agreement whenever no reload is half done, if and only
   if the files that reloads accept ask for the same.
   */
  lemma OverlapExactly(lib: Lib, d: State, files: set<ConfigFile>)
    requires Reachable(lib, d) && d.reloads == map[] && Agrees(lib, d.live, d.eg.settings, d.tc)
    ensures (forall n | Reaches(lib, LoadsFrom(files), d, n) && Settled(n) :: Agrees(lib, n.live, n.eg.settings, n.tc))
            <==> Unanimous(lib, d.startup, files)
  {
    ReachableConfig(lib, d);
    if Unanimous(lib, d.startup, files) {
      var s, t := CommonAsk(lib, d.startup, files, d.eg.settings, d.tc);
      forall n | Reaches(lib, LoadsFrom(files), d, n) && Settled(n) ensures Agrees(lib, n.live, n.eg.settings, n.tc) {
        SameAskAgrees(lib, d, files, s, t, n);
      }
    } else {
      var f, g :| f in files && g in files && ReloadAccepts(lib, f) && ReloadAccepts(lib, g)
                  && Asks(lib, d.startup, f) != Asks(lib, d.startup, g);
      var n := CrossedReloads(lib, d, files, f, g);
      assert Settled(n) && !Agrees(lib, n.live, n.eg.settings, n.tc);
    }
  }
}
