/** `SourceSimulator` of simulate.py as a state machine over immutable states,
    and the `_simulate` workflow. A call that raises leaves the state as it
    was, because every method raises before it changes anything. */
module Simulate {
  import opened Outcomes
  import opened PyStrings
  import opened PyValues
  import opened Utils
  import opened Dicts
  import opened Sources
  import opened Check
  import opened SourceGroups
  import Snr
  import Floats

  datatype Simulator = Simulator(
    src: seq<SourceSpace>,
    sourceGroups: seq<PointSourceGroup>,
    noiseGroups: seq<PointSourceGroup>,
    sources: seq<string>,                        // every name added so far
    coupling: map<(string, string), Keywords>,
    isSnrAdjusted: bool)

  /** `SourceSimulator(src)`. */
  function Init(src: seq<SourceSpace>): (sim: Simulator)
    ensures sim.src == src && sim.sourceGroups == [] && sim.noiseGroups == [] && sim.sources == []
    ensures sim.coupling == map[] && !sim.isSnrAdjusted
  {
    Simulator(src, [], [], [], map[], false)
  }

  /** The label of the k-th signal group and of the k-th noise group. */
  function SignalLabel(k: nat): string
  {
    "sg" + NatToString(k)
  }

  function NoiseLabel(k: nat): string
  {
    "ng" + NatToString(k)
  }

  /** `add_point_sources`: a group labelled `sg{k}`, k the number of signal
      groups so far, is created, appended and its names registered; the flag
      is raised when the group has an SNR. */
  function AddPointSources(sim: Simulator, location: LocationInput, waveform: WaveformInput, snr: Option<Value>,
                           locationParams: Keywords, waveformParams: Keywords, snrParams: Keywords,
                           names: Option<seq<string>>): (r: Result<(Simulator, seq<string>)>)
    ensures var c := Create(sim.src, location, waveform, snr, locationParams, waveformParams, snrParams, names,
                            SignalLabel(|sim.sourceGroups|), sim.sources);
      (r.Ok? <==> c.Ok?) && (r.Err? ==> r.error == c.error)
      && (r.Ok? ==> r.value.1 == c.value.names
                    && r.value.0 == sim.(sourceGroups := sim.sourceGroups + [c.value],
                                         sources := sim.sources + c.value.names,
                                         isSnrAdjusted := sim.isSnrAdjusted || c.value.snr.Some?))
  {
    var g :- Create(sim.src, location, waveform, snr, locationParams, waveformParams, snrParams, names,
                    SignalLabel(|sim.sourceGroups|), sim.sources);
    var next := sim.(sourceGroups := sim.sourceGroups + [g], sources := sim.sources + g.names);
    Ok((if g.snr.Some? then next.(isSnrAdjusted := true) else next, g.names))
  }

  /** `add_patch_sources`: `PatchSourceGroup.create` does not exist. */
  function AddPatchSources(sim: Simulator): (r: Result<(Simulator, seq<string>)>)
    ensures r == Err(PatchGroupHasNoCreate)
  {
    var created := CreatePatchGroup();
    Err(created.error)
  }

  /** `add_noise_sources`: a group labelled `ng{k}`, k the number of noise
      groups so far, with no SNR, no SNR parameters and autogenerated names. */
  function AddNoiseSources(sim: Simulator, location: LocationInput, waveform: WaveformInput,
                           locationParams: Keywords, waveformParams: Keywords): (r: Result<(Simulator, seq<string>)>)
    ensures var c := Create(sim.src, location, waveform, None, locationParams, waveformParams, map[], None,
                            NoiseLabel(|sim.noiseGroups|), sim.sources);
      (r.Ok? <==> c.Ok?) && (r.Err? ==> r.error == c.error)
      && (r.Ok? ==> r.value.1 == c.value.names
                    && r.value.0 == sim.(noiseGroups := sim.noiseGroups + [c.value], sources := sim.sources + c.value.names))
    ensures r.Ok? ==> r.value.1 == AutoNames(NoiseLabel(|sim.noiseGroups|), |r.value.1|)
  {
    var g :- Create(sim.src, location, waveform, None, locationParams, waveformParams, map[], None,
                    NoiseLabel(|sim.noiseGroups|), sim.sources);
    Ok((sim.(noiseGroups := sim.noiseGroups + [g], sources := sim.sources + g.names), g.names))
  }

  /** `set_coupling`: not supported. */
  function SetCoupling(sim: Simulator, coupling: map<(string, string), Keywords>, how: Value): (r: Result<Simulator>)
    ensures r == Err(CouplingNotSupported)
  {
    Err(CouplingNotSupported)
  }

  // ----- sequences of calls -----

  /** One call on the simulator object. */
  datatype Command =
    | AddPoint(location: LocationInput, waveform: WaveformInput, snr: Option<Value>,
               locationParams: Keywords, waveformParams: Keywords, snrParams: Keywords, names: Option<seq<string>>)
    | AddPatch
    | AddNoise(location: LocationInput, waveform: WaveformInput, locationParams: Keywords, waveformParams: Keywords)
    | Couple(coupling: map<(string, string), Keywords>, how: Value)

  /** The state after a call; a call that raises changes nothing. */
  function Apply(sim: Simulator, c: Command): Simulator
  {
    match c
    case AddPoint(location, waveform, snr, lp, wp, sp, names) =>
      var r := AddPointSources(sim, location, waveform, snr, lp, wp, sp, names);
      if r.Ok? then r.value.0 else sim
    case AddPatch =>
      var r := AddPatchSources(sim);
      if r.Ok? then r.value.0 else sim
    case AddNoise(location, waveform, lp, wp) =>
      var r := AddNoiseSources(sim, location, waveform, lp, wp);
      if r.Ok? then r.value.0 else sim
    case Couple(coupling, how) =>
      var r := SetCoupling(sim, coupling, how);
      if r.Ok? then r.value else sim
  }

  function Run(sim: Simulator, cs: seq<Command>): Simulator
    decreases |cs|
  {
    if cs == [] then sim else Run(Apply(sim, cs[0]), cs[1..])
  }

  /** No call ever raises the SNR flag (a group with an SNR is refused by
      `check_snr`), and no call changes the source space or the coupling. */
  lemma {:induction false} FlagNeverRaised(sim: Simulator, cs: seq<Command>)
    requires !sim.isSnrAdjusted
    ensures !Run(sim, cs).isSnrAdjusted
    ensures Run(sim, cs).src == sim.src && Run(sim, cs).coupling == sim.coupling
    decreases |cs|
  {
    if cs != [] {
      FlagNeverRaised(Apply(sim, cs[0]), cs[1..]);
    }
  }

  /** Every simulator built from `SourceSimulator(src)` keeps is_snr_adjusted
      false and its coupling empty. */
  lemma ReachableNotAdjusted(src: seq<SourceSpace>, cs: seq<Command>)
    ensures !Run(Init(src), cs).isSnrAdjusted && Run(Init(src), cs).coupling == map[]
  {
    FlagNeverRaised(Init(src), cs);
  }

  // ----- autogenerated names -----

  /** Autogenerated names of two signal groups agree only for the same group
      and the same position. */
  lemma SignalNamesInjective(k: nat, i: nat, k': nat, i': nat)
    requires AutoName(SignalLabel(k), i) == AutoName(SignalLabel(k'), i')
    ensures k == k' && i == i'
  {
    var prefix := "auto-sg";
    var rest := NatToString(k) + "-s" + NatToString(i);
    var rest' := NatToString(k') + "-s" + NatToString(i');
    assert AutoName(SignalLabel(k), i) == prefix + rest;
    assert AutoName(SignalLabel(k'), i') == prefix + rest';
    assert rest == AutoName(SignalLabel(k), i)[|prefix|..];
    assert rest' == AutoName(SignalLabel(k'), i')[|prefix|..];
    SplitAtSeparator(NatToString(k), NatToString(i), NatToString(k'), NatToString(i'), "-s");
    NatToStringInjective(k, k');
    NatToStringInjective(i, i');
  }

  lemma NoiseNamesInjective(k: nat, i: nat, k': nat, i': nat)
    requires AutoName(NoiseLabel(k), i) == AutoName(NoiseLabel(k'), i')
    ensures k == k' && i == i'
  {
    var prefix := "auto-ng";
    var rest := NatToString(k) + "-s" + NatToString(i);
    var rest' := NatToString(k') + "-s" + NatToString(i');
    assert AutoName(NoiseLabel(k), i) == prefix + rest;
    assert AutoName(NoiseLabel(k'), i') == prefix + rest';
    assert rest == AutoName(NoiseLabel(k), i)[|prefix|..];
    assert rest' == AutoName(NoiseLabel(k'), i')[|prefix|..];
    SplitAtSeparator(NatToString(k), NatToString(i), NatToString(k'), NatToString(i'), "-s");
    NatToStringInjective(k, k');
    NatToStringInjective(i, i');
  }

  /** A signal name never equals a noise name. */
  lemma SignalNotNoise(k: nat, i: nat, k': nat, i': nat)
    ensures AutoName(SignalLabel(k), i) != AutoName(NoiseLabel(k'), i')
  {
    assert AutoName(SignalLabel(k), i)[5] == 's';
    assert AutoName(NoiseLabel(k'), i')[5] == 'n';
  }

  /** The name was generated for one of the existing groups. */
  ghost predicate Generated(name: string, sim: Simulator)
  {
    (exists k: nat, i: nat :: k < |sim.sourceGroups| && name == AutoName(SignalLabel(k), i))
    || (exists k: nat, i: nat :: k < |sim.noiseGroups| && name == AutoName(NoiseLabel(k), i))
  }

  /** Every registered name was generated, and no name is registered twice. */
  ghost predicate GeneratedRegistry(sim: Simulator)
  {
    (forall j :: 0 <= j < |sim.sources| ==> Generated(sim.sources[j], sim))
    && forall a, b :: 0 <= a < b < |sim.sources| ==> sim.sources[a] != sim.sources[b]
  }

  /** The call passes no names, so the group's names are generated. */
  predicate Unnamed(c: Command)
  {
    c.AddPoint? ==> (c.names.None? || c.names.value == [])
  }

  /** The groups of sim' extend those of sim by one signal or one noise group. */
  predicate OneGroupMore(sim: Simulator, sim': Simulator, signal: bool)
  {
    && (signal ==> |sim'.sourceGroups| == |sim.sourceGroups| + 1 && |sim'.noiseGroups| == |sim.noiseGroups|)
    && (!signal ==> |sim'.noiseGroups| == |sim.noiseGroups| + 1 && |sim'.sourceGroups| == |sim.sourceGroups|)
  }

  /** The names generated for the new group. */
  predicate NewGroupNames(sim: Simulator, added: seq<string>, signal: bool)
  {
    && (signal ==> added == AutoNames(SignalLabel(|sim.sourceGroups|), |added|))
    && (!signal ==> added == AutoNames(NoiseLabel(|sim.noiseGroups|), |added|))
  }

  /** Appending the generated names of a new group labelled with the next index
      keeps the registry generated and duplicate-free. */
  lemma AppendGenerated(sim: Simulator, sim': Simulator, added: seq<string>, signal: bool)
    requires GeneratedRegistry(sim)
    requires sim'.sources == sim.sources + added
    requires OneGroupMore(sim, sim', signal) && NewGroupNames(sim, added, signal)
    ensures GeneratedRegistry(sim')
  {
    AppendedGenerated(sim, sim', added, signal);
    AppendedDistinct(sim, sim', added, signal);
  }

  lemma AppendedGenerated(sim: Simulator, sim': Simulator, added: seq<string>, signal: bool)
    requires GeneratedRegistry(sim)
    requires sim'.sources == sim.sources + added
    requires OneGroupMore(sim, sim', signal) && NewGroupNames(sim, added, signal)
    ensures forall j :: 0 <= j < |sim'.sources| ==> Generated(sim'.sources[j], sim')
  {
    var n := |sim.sources|;
    var K := if signal then |sim.sourceGroups| else |sim.noiseGroups|;
    forall j | 0 <= j < |sim'.sources|
      ensures Generated(sim'.sources[j], sim')
    {
      if j < n {
        assert sim'.sources[j] == sim.sources[j];
        assert Generated(sim.sources[j], sim);
      } else {
        assert sim'.sources[j] == added[j - n];
        if signal {
          assert K < |sim'.sourceGroups| && sim'.sources[j] == AutoName(SignalLabel(K), j - n);
        } else {
          assert K < |sim'.noiseGroups| && sim'.sources[j] == AutoName(NoiseLabel(K), j - n);
        }
      }
    }
  }

  lemma AppendedDistinct(sim: Simulator, sim': Simulator, added: seq<string>, signal: bool)
    requires GeneratedRegistry(sim)
    requires sim'.sources == sim.sources + added
    requires OneGroupMore(sim, sim', signal) && NewGroupNames(sim, added, signal)
    ensures forall a, b :: 0 <= a < b < |sim'.sources| ==> sim'.sources[a] != sim'.sources[b]
  {
    var n := |sim.sources|;
    var K := if signal then |sim.sourceGroups| else |sim.noiseGroups|;
    forall a, b | 0 <= a < b < |sim'.sources|
      ensures sim'.sources[a] != sim'.sources[b]
    {
      if b < n {
        assert sim'.sources[a] == sim.sources[a] && sim'.sources[b] == sim.sources[b];
      } else if a >= n {
        assert sim'.sources[a] == added[a - n] && sim'.sources[b] == added[b - n];
        if signal {
          if sim'.sources[a] == sim'.sources[b] {
            SignalNamesInjective(K, a - n, K, b - n);
          }
        } else {
          if sim'.sources[a] == sim'.sources[b] {
            NoiseNamesInjective(K, a - n, K, b - n);
          }
        }
      } else {
        assert sim'.sources[a] == sim.sources[a] && sim'.sources[b] == added[b - n];
        assert Generated(sim.sources[a], sim);
        OldNotNew(sim, added, signal, sim.sources[a], b - n);
      }
    }
  }

  /** A name generated for an existing group differs from every name of the new one. */
  lemma OldNotNew(sim: Simulator, added: seq<string>, signal: bool, name: string, i: nat)
    requires Generated(name, sim) && NewGroupNames(sim, added, signal) && i < |added|
    ensures name != added[i]
  {
    var K := if signal then |sim.sourceGroups| else |sim.noiseGroups|;
    if signal {
      assert added[i] == AutoName(SignalLabel(K), i);
      if exists k: nat, i: nat :: k < |sim.sourceGroups| && name == AutoName(SignalLabel(k), i) {
        var k: nat, j: nat :| k < |sim.sourceGroups| && name == AutoName(SignalLabel(k), j);
        if name == added[i] {
          SignalNamesInjective(k, j, K, i);
        }
      } else {
        var k: nat, j: nat :| k < |sim.noiseGroups| && name == AutoName(NoiseLabel(k), j);
        SignalNotNoise(K, i, k, j);
      }
    } else {
      assert added[i] == AutoName(NoiseLabel(K), i);
      if exists k: nat, i: nat :: k < |sim.noiseGroups| && name == AutoName(NoiseLabel(k), i) {
        var k: nat, j: nat :| k < |sim.noiseGroups| && name == AutoName(NoiseLabel(k), j);
        if name == added[i] {
          NoiseNamesInjective(k, j, K, i);
        }
      } else {
        var k: nat, j: nat :| k < |sim.sourceGroups| && name == AutoName(SignalLabel(k), j);
        SignalNotNoise(k, j, K, i);
      }
    }
  }

  lemma ApplyGenerated(sim: Simulator, c: Command)
    requires GeneratedRegistry(sim) && Unnamed(c)
    ensures GeneratedRegistry(Apply(sim, c))
  {
    match c
    case AddPoint(location, waveform, snr, lp, wp, sp, names) =>
      var r := AddPointSources(sim, location, waveform, snr, lp, wp, sp, names);
      if r.Ok? {
        AppendGenerated(sim, r.value.0, r.value.1, true);
      }
    case AddNoise(location, waveform, lp, wp) =>
      var r := AddNoiseSources(sim, location, waveform, lp, wp);
      if r.Ok? {
        AppendGenerated(sim, r.value.0, r.value.1, false);
      }
    case AddPatch =>
    case Couple(_, _) =>
  }

  /** When no call passes names, all registered names are distinct: the group
      labels `sg{k}` and `ng{k}` never repeat and tell signal from noise. */
  lemma {:induction false} GeneratedNamesDistinct(sim: Simulator, cs: seq<Command>)
    requires GeneratedRegistry(sim)
    requires forall j :: 0 <= j < |cs| ==> Unnamed(cs[j])
    ensures GeneratedRegistry(Run(sim, cs))
    ensures forall a, b :: 0 <= a < b < |Run(sim, cs).sources| ==> Run(sim, cs).sources[a] != Run(sim, cs).sources[b]
    decreases |cs|
  {
    if cs != [] {
      ApplyGenerated(sim, cs[0]);
      assert forall j :: 0 <= j < |cs[1..]| ==> Unnamed(cs[1..][j]) by {
        forall j | 0 <= j < |cs[1..]| ensures Unnamed(cs[1..][j]) {
          assert cs[1..][j] == cs[j + 1];
        }
      }
      GeneratedNamesDistinct(Apply(sim, cs[0]), cs[1..]);
    }
  }

  lemma FreshNamesDistinct(src: seq<SourceSpace>, cs: seq<Command>)
    requires forall j :: 0 <= j < |cs| ==> Unnamed(cs[j])
    ensures forall a, b :: 0 <= a < b < |Run(Init(src), cs).sources| ==> Run(Init(src), cs).sources[a] != Run(Init(src), cs).sources[b]
  {
    GeneratedNamesDistinct(Init(src), cs);
  }

  // ----- the name registry -----

  /** The names of the groups, group after group. */
  function GroupNames(gs: seq<PointSourceGroup>): (r: seq<string>)
    ensures |gs| > 0 ==> r == GroupNames(gs[..|gs| - 1]) + gs[|gs| - 1].names
  {
    if gs == [] then [] else GroupNames(gs[..|gs| - 1]) + gs[|gs| - 1].names
  }

  /** The registry holds exactly the names of the signal and noise groups. */
  ghost predicate RegistryMatchesGroups(sim: Simulator)
  {
    multiset(sim.sources) == multiset(GroupNames(sim.sourceGroups)) + multiset(GroupNames(sim.noiseGroups))
  }

  lemma ApplyKeepsRegistry(sim: Simulator, c: Command)
    requires RegistryMatchesGroups(sim)
    ensures RegistryMatchesGroups(Apply(sim, c))
  {
    match c
    case AddPoint(location, waveform, snr, lp, wp, sp, names) =>
      var r := AddPointSources(sim, location, waveform, snr, lp, wp, sp, names);
      if r.Ok? {
        var g := r.value.0.sourceGroups[|sim.sourceGroups|];
        GroupAddedFirst(sim.sources, sim.sourceGroups, sim.noiseGroups, g);
      }
    case AddNoise(location, waveform, lp, wp) =>
      var r := AddNoiseSources(sim, location, waveform, lp, wp);
      if r.Ok? {
        var g := r.value.0.noiseGroups[|sim.noiseGroups|];
        GroupAddedSecond(sim.sources, sim.sourceGroups, sim.noiseGroups, g);
      }
    case AddPatch =>
    case Couple(_, _) =>
  }

  /** Registering a new signal group's names keeps the registry equal to the
      names of the groups. */
  lemma GroupAddedFirst(sources: seq<string>, gs: seq<PointSourceGroup>, other: seq<PointSourceGroup>, g: PointSourceGroup)
    requires multiset(sources) == multiset(GroupNames(gs)) + multiset(GroupNames(other))
    ensures multiset(sources + g.names) == multiset(GroupNames(gs + [g])) + multiset(GroupNames(other))
  {
    assert (gs + [g])[..|gs|] == gs;
  }

  /** The same for a new noise group. */
  lemma GroupAddedSecond(sources: seq<string>, gs: seq<PointSourceGroup>, other: seq<PointSourceGroup>, g: PointSourceGroup)
    requires multiset(sources) == multiset(GroupNames(gs)) + multiset(GroupNames(other))
    ensures multiset(sources + g.names) == multiset(GroupNames(gs)) + multiset(GroupNames(other + [g]))
  {
    assert (other + [g])[..|other|] == other;
  }

  /** Calls keep the registry equal, as a multiset, to the names of all groups:
      every added name is registered once per group that carries it. */
  lemma {:induction false} RegistryIsGroupNames(sim: Simulator, cs: seq<Command>)
    requires RegistryMatchesGroups(sim)
    ensures RegistryMatchesGroups(Run(sim, cs))
    decreases |cs|
  {
    if cs != [] {
      ApplyKeepsRegistry(sim, cs[0]);
      RegistryIsGroupNames(Apply(sim, cs[0]), cs[1..]);
    }
  }

  lemma FreshRegistry(src: seq<SourceSpace>, cs: seq<Command>)
    ensures var sim := Run(Init(src), cs);
      multiset(sim.sources) == multiset(GroupNames(sim.sourceGroups)) + multiset(GroupNames(sim.noiseGroups))
  {
    RegistryIsGroupNames(Init(src), cs);
  }

  // ----- simulate and _simulate -----

  /** `group.simulate(src, times, random_state=...)`: the named sources a group
      yields. The workflow is stated for any such function; `PointGroupSimulate`
      is the one the code has. */
  type Generator = (PointSourceGroup, seq<SourceSpace>, seq<real>, Option<int>) -> Result<seq<(string, PointSource)>>

  /** `PointSourceGroup.simulate` calls `PointSource.create`, which the class
      does not define, so the lookup fails with AttributeError. */
  function PointGroupSimulate(g: PointSourceGroup, src: seq<SourceSpace>, times: seq<real>, randomState: Option<int>): (r: Result<seq<(string, PointSource)>>)
    ensures r == Err(PointSourceHasNoCreate)
  {
    Err(PointSourceHasNoCreate)
  }

  /** `_adjust_snr(src, fwd, sources, source_groups, noise_sources)`, which
      snr.py does not define. */
  type Adjuster = (seq<SourceSpace>, Option<Snr.Forward>, Dict<PointSource>, seq<PointSourceGroup>, Dict<PointSource>) -> Result<Dict<PointSource>>

  /** The sources of every group, group after group, all with the same random
      state; the first group that raises stops the loop. */
  function GenerateAll(groups: seq<PointSourceGroup>, src: seq<SourceSpace>, times: seq<real>, randomState: Option<int>,
                       generate: Generator): (r: Result<seq<(string, PointSource)>>)
    ensures var steps := seq(|groups|, i requires 0 <= i < |groups| => generate(groups[i], src, times, randomState));
      (r.Ok? <==> Collect(steps).Ok?) && (r.Err? ==> r.error == Collect(steps).error)
      && (r.Ok? ==> r.value == Concat(Collect(steps).value))
  {
    var steps := seq(|groups|, i requires 0 <= i < |groups| => generate(groups[i], src, times, randomState));
    var parts :- Collect(steps);
    Ok(Concat(parts))
  }

  /** What `_simulate` returns: the signal and the noise sources by name. */
  datatype Simulated = Simulated(sources: Dict<PointSource>, noiseSources: Dict<PointSource>)

  /** `_simulate`: all noise groups first, then all signal groups, each keyed
      by name (a repeated name keeps the last source); the signal is adjusted
      only when the flag is set. */
  function SimulateGroups(sourceGroups: seq<PointSourceGroup>, noiseGroups: seq<PointSourceGroup>, isSnrAdjusted: bool,
                          src: seq<SourceSpace>, times: seq<real>, fwd: Option<Snr.Forward>, randomState: Option<int>,
                          generate: Generator, adjust: Adjuster): (r: Result<Simulated>)
    ensures var noise := GenerateAll(noiseGroups, src, times, randomState, generate);
      var signal := GenerateAll(sourceGroups, src, times, randomState, generate);
      (noise.Err? ==> r == Err(noise.error))
      && (noise.Ok? && signal.Err? ==> r == Err(signal.error))
      && (noise.Ok? && signal.Ok? && !isSnrAdjusted ==> r == Ok(Simulated(FromPairs(signal.value), FromPairs(noise.value))))
      && (noise.Ok? && signal.Ok? && isSnrAdjusted ==>
            var adjusted := adjust(src, fwd, FromPairs(signal.value), sourceGroups, FromPairs(noise.value));
            (r.Ok? <==> adjusted.Ok?) && (r.Err? ==> r.error == adjusted.error)
            && (r.Ok? ==> r.value == Simulated(adjusted.value, FromPairs(noise.value))))
  {
    var noiseList :- GenerateAll(noiseGroups, src, times, randomState, generate);
    var noiseSources := FromPairs(noiseList);
    var signalList :- GenerateAll(sourceGroups, src, times, randomState, generate);
    var sources := FromPairs(signalList);
    if isSnrAdjusted then
      var adjusted :- adjust(src, fwd, sources, sourceGroups, noiseSources);
      Ok(Simulated(adjusted, noiseSources))
    else Ok(Simulated(sources, noiseSources))
  }

  /** The number of samples `np.arange(n)` yields: the naturals below n, so n
      rounded up. */
  function SampleCount(n: real): (k: nat)
    ensures n <= 0.0 ==> k == 0
    ensures n > 0.0 ==> (k - 1) as real < n <= k as real
  {
    if n <= 0.0 then 0
    else if n.Floor as real == n then n.Floor
    else n.Floor + 1
  }

  /** The time axis of a new `SourceConfiguration`: `np.arange(sfreq * duration)
      / sfreq`, after which `times[1] - times[0]` raises IndexError unless there
      are at least two samples. */
  function TimeAxis(sfreq: real, duration: real): (r: Result<seq<real>>)
    ensures r.Err? <==> sfreq * duration <= 1.0
    ensures r.Err? ==> r.error == TooFewSamples
    ensures r.Ok? ==>
      sfreq != 0.0 && |r.value| == SampleCount(sfreq * duration)
      && forall i :: 0 <= i < |r.value| ==> r.value[i] == i as real / sfreq
  {
    var n := SampleCount(sfreq * duration);
    if n < 2 then Err(TooFewSamples)
    else Ok(seq(n, i requires 0 <= i < n => i as real / sfreq))
  }

  /** Reading the rate back from the configuration's time axis, as `get_sfreq`
      does, gives sfreq. */
  lemma TimeAxisRate(sfreq: real, duration: real)
    requires TimeAxis(sfreq, duration).Ok?
    ensures GetSfreq(TimeAxis(sfreq, duration).value) == Ok(Floats.Finite(sfreq))
  {
    var t := TimeAxis(sfreq, duration).value;
    var d := 1.0 / sfreq;
    forall i | 0 <= i < |t|
      ensures t[i] == t[0] + i as real * d
    {
      QuotientAsProduct(i as real, sfreq);
    }
    UniformTimesRate(t, d);
    InverseInverse(sfreq);
  }

  lemma QuotientAsProduct(x: real, y: real)
    requires y != 0.0
    ensures x / y == 0.0 / y + x * (1.0 / y)
  {
  }

  lemma InverseInverse(y: real)
    requires y != 0.0
    ensures 1.0 / (1.0 / y) == y
  {
  }

  /** `SourceSimulator.simulate`: no groups at all raises, then a set flag
      without a forward model raises, then building the `SourceConfiguration`
      raises on fewer than two samples; otherwise `_simulate` on its time axis. */
  function SimulateAll(sim: Simulator, sfreq: real, duration: real, fwd: Option<Snr.Forward>, randomState: Option<int>,
                       generate: Generator, adjust: Adjuster): (r: Result<Simulated>)
    ensures sim.sourceGroups == [] && sim.noiseGroups == [] ==> r == Err(NoSourcesAdded)
    ensures (sim.sourceGroups != [] || sim.noiseGroups != []) && sim.isSnrAdjusted && fwd.None? ==> r == Err(ForwardModelRequired)
    ensures (sim.sourceGroups != [] || sim.noiseGroups != []) && !(sim.isSnrAdjusted && fwd.None?) ==>
      var times := TimeAxis(sfreq, duration);
      (times.Err? ==> r == Err(TooFewSamples))
      && (times.Ok? ==> r == SimulateGroups(sim.sourceGroups, sim.noiseGroups, sim.isSnrAdjusted, sim.src, times.value, fwd,
                                            randomState, generate, adjust))
  {
    if sim.sourceGroups == [] && sim.noiseGroups == [] then Err(NoSourcesAdded)
    else if sim.isSnrAdjusted && fwd.None? then Err(ForwardModelRequired)
    else
      var times :- TimeAxis(sfreq, duration);
      SimulateGroups(sim.sourceGroups, sim.noiseGroups, sim.isSnrAdjusted, sim.src, times, fwd,
                     randomState, generate, adjust)
  }

  /** A failing noise group decides the error whatever the signal groups do. */
  lemma NoiseGeneratedFirst(sourceGroups: seq<PointSourceGroup>, noiseGroups: seq<PointSourceGroup>, isSnrAdjusted: bool,
                            src: seq<SourceSpace>, times: seq<real>, fwd: Option<Snr.Forward>, randomState: Option<int>,
                            generate: Generator, adjust: Adjuster, k: nat)
    requires k < |noiseGroups| && generate(noiseGroups[k], src, times, randomState).Err?
    requires forall j :: 0 <= j < k ==> generate(noiseGroups[j], src, times, randomState).Ok?
    ensures SimulateGroups(sourceGroups, noiseGroups, isSnrAdjusted, src, times, fwd, randomState, generate, adjust)
            == Err(generate(noiseGroups[k], src, times, randomState).error)
  {
    var steps := seq(|noiseGroups|, i requires 0 <= i < |noiseGroups| => generate(noiseGroups[i], src, times, randomState));
    assert steps[k].Err?;
    var c := Collect(steps);
    assert c.Err?;
    var k' :| 0 <= k' < |steps| && steps[k'].Err? && c.error == steps[k'].error && forall j :: 0 <= j < k' ==> steps[j].Ok?;
    assert k' == k;
  }

  /** A simulator built by calls passes the forward-model check without a
      forward model, and `_simulate` never adjusts its signal. */
  lemma ReachableNeedsNoForward(src: seq<SourceSpace>, cs: seq<Command>, sfreq: real, duration: real, randomState: Option<int>,
                                generate: Generator, adjust: Adjuster)
    ensures var sim := Run(Init(src), cs);
      var times := TimeAxis(sfreq, duration);
      (sim.sourceGroups != [] || sim.noiseGroups != []) && times.Ok? ==>
      SimulateAll(sim, sfreq, duration, None, randomState, generate, adjust)
      == SimulateGroups(sim.sourceGroups, sim.noiseGroups, false, src, times.value, None, randomState, generate, adjust)
  {
    FlagNeverRaised(Init(src), cs);
  }

  /** With the group `simulate` of the code, every simulator fails: at its own
      precondition checks, at the time axis of too short a simulation, or at the
      first group. */
  lemma AsWrittenSimulateFails(sim: Simulator, sfreq: real, duration: real, fwd: Option<Snr.Forward>, randomState: Option<int>,
                               adjust: Adjuster)
    ensures SimulateAll(sim, sfreq, duration, fwd, randomState, PointGroupSimulate, adjust).Err?
    ensures var r := SimulateAll(sim, sfreq, duration, fwd, randomState, PointGroupSimulate, adjust);
      (sim.sourceGroups != [] || sim.noiseGroups != []) && !(sim.isSnrAdjusted && fwd.None?) ==>
      (sfreq * duration <= 1.0 ==> r == Err(TooFewSamples))
      && (sfreq * duration > 1.0 ==> r == Err(PointSourceHasNoCreate))
  {
    var times := TimeAxis(sfreq, duration);
    if (sim.sourceGroups != [] || sim.noiseGroups != []) && !(sim.isSnrAdjusted && fwd.None?) && times.Ok? {
      if sim.noiseGroups != [] {
        NoGroupGenerates(sim.noiseGroups, sim.src, times.value, randomState);
      } else {
        NoGroupGenerates(sim.sourceGroups, sim.src, times.value, randomState);
      }
    }
  }

  /** With the group `simulate` of the code, generating any non-empty list of
      groups fails at the first group. */
  lemma NoGroupGenerates(groups: seq<PointSourceGroup>, src: seq<SourceSpace>, times: seq<real>, randomState: Option<int>)
    requires groups != []
    ensures GenerateAll(groups, src, times, randomState, PointGroupSimulate) == Err(PointSourceHasNoCreate)
  {
    var steps := seq(|groups|, i requires 0 <= i < |groups| => PointGroupSimulate(groups[i], src, times, randomState));
    assert steps[0].Err?;
    var c := Collect(steps);
    var k :| 0 <= k < |steps| && steps[k].Err? && c.error == steps[k].error && forall j :: 0 <= j < k ==> steps[j].Ok?;
  }
}
