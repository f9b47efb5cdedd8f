/** The source groups of source_groups.py: what a group of point sources
    stores until the simulation, and the checks its `create` runs. */
module SourceGroups {
  import opened Outcomes
  import opened PyValues
  import opened Utils
  import opened Check

  /** A `PointSourceGroup`: the number of sources, the checked location and
      waveform, the SNR fields and one name per source. */
  datatype PointSourceGroup = PointSourceGroup(
    nSources: nat,
    location: LocationInput,
    waveform: WaveformInput,
    snr: Option<Value>,
    snrParams: Option<Keywords>,
    names: seq<string>)

  /** `_BaseSourceGroup.simulate`, which every group without its own
      `simulate` (a `PatchSourceGroup`) inherits. */
  function BaseSimulate<T>(): (r: Result<T>)
    ensures r == Err(SimulateNotImplemented)
  {
    Err(SimulateNotImplemented)
  }

  /** `PointSourceGroup.create`: the checks in the order location, waveform,
      snr, snr_params, names, with the number of sources that the location
      check counted; then the group of their results. */
  function Create(src: seq<SourceSpace>, location: LocationInput, waveform: WaveformInput, snr: Option<Value>,
                  locationParams: Keywords, waveformParams: Keywords, snrParams: Keywords,
                  names: Option<seq<string>>, group: string, existing: seq<string>): (r: Result<PointSourceGroup>)
    ensures r.Ok? ==> r.value.snr.None? && r.value.snrParams.None?
    ensures r.Ok? ==> |r.value.names| == r.value.nSources
    ensures r.Ok? && (names.None? || names.value == []) ==> r.value.names == AutoNames(group, r.value.nSources)
    ensures r.Ok? && names.Some? && names.value != [] ==> r.value.names == names.value
  {
    var (checkedLocation, n) :- CheckLocation(location, locationParams, src);
    var checkedWaveform :- CheckWaveform(waveform, waveformParams, n);
    var checkedSnr :- CheckSnr(snr, n);
    var checkedParams := CheckSnrParams(snrParams);
    var checkedNames :- CheckNames(names, group, n, existing);
    Ok(PointSourceGroup(n, checkedLocation, checkedWaveform, checkedSnr, checkedParams, checkedNames))
  }

  /** The first failing check decides the error, and a successful group holds
      exactly what the checks returned. */
  lemma CreateOrder(src: seq<SourceSpace>, location: LocationInput, waveform: WaveformInput, snr: Option<Value>,
                    locationParams: Keywords, waveformParams: Keywords, snrParams: Keywords,
                    names: Option<seq<string>>, group: string, existing: seq<string>)
    ensures var r := Create(src, location, waveform, snr, locationParams, waveformParams, snrParams, names, group, existing);
      var loc := CheckLocation(location, locationParams, src);
      (loc.Err? ==> r == Err(loc.error))
      && (loc.Ok? ==>
        var n := loc.value.1;
        var wf := CheckWaveform(waveform, waveformParams, n);
        var nm := CheckNames(names, group, n, existing);
        (wf.Err? ==> r == Err(wf.error))
        && (wf.Ok? && snr.Some? ==> r == Err(SnrNotSupported))
        && (wf.Ok? && snr.None? && nm.Err? ==> r == Err(nm.error))
        && (wf.Ok? && snr.None? && nm.Ok? ==> r == Ok(PointSourceGroup(n, loc.value.0, wf.value, None, None, nm.value))))
  {
    var loc := CheckLocation(location, locationParams, src);
    if loc.Ok? {
      CreateAfterLocation(src, location, waveform, snr, locationParams, waveformParams, snrParams, names, group, existing);
    }
  }

  /** Create once the location check has passed. */
  lemma CreateAfterLocation(src: seq<SourceSpace>, location: LocationInput, waveform: WaveformInput, snr: Option<Value>,
                            locationParams: Keywords, waveformParams: Keywords, snrParams: Keywords,
                            names: Option<seq<string>>, group: string, existing: seq<string>)
    requires CheckLocation(location, locationParams, src).Ok?
    ensures var r := Create(src, location, waveform, snr, locationParams, waveformParams, snrParams, names, group, existing);
      var loc := CheckLocation(location, locationParams, src);
      var n := loc.value.1;
      var wf := CheckWaveform(waveform, waveformParams, n);
      var nm := CheckNames(names, group, n, existing);
      (wf.Err? ==> r == Err(wf.error))
      && (wf.Ok? && snr.Some? ==> r == Err(SnrNotSupported))
      && (wf.Ok? && snr.None? && nm.Err? ==> r == Err(nm.error))
      && (wf.Ok? && snr.None? && nm.Ok? ==> r == Ok(PointSourceGroup(n, loc.value.0, wf.value, None, None, nm.value)))
  {
  }

  /** A group is created exactly when every check passes; an SNR value always
      makes it fail. */
  lemma CreateSucceeds(src: seq<SourceSpace>, location: LocationInput, waveform: WaveformInput, snr: Option<Value>,
                       locationParams: Keywords, waveformParams: Keywords, snrParams: Keywords,
                       names: Option<seq<string>>, group: string, existing: seq<string>)
    ensures var r := Create(src, location, waveform, snr, locationParams, waveformParams, snrParams, names, group, existing);
      var loc := CheckLocation(location, locationParams, src);
      r.Ok? <==> (loc.Ok? && CheckWaveform(waveform, waveformParams, loc.value.1).Ok? && snr.None?
                  && CheckNames(names, group, loc.value.1, existing).Ok?)
  {
    CreateOrder(src, location, waveform, snr, locationParams, waveformParams, snrParams, names, group, existing);
  }

  /** `PatchSourceGroup.create`: the class defines nothing, so the lookup of
      `create` fails with AttributeError. */
  function CreatePatchGroup(): (r: Result<PointSourceGroup>)
    ensures r == Err(PatchGroupHasNoCreate)
  {
    Err(PatchGroupHasNoCreate)
  }
}
