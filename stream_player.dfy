/**
 * `StreamPlayerGStreamer`: the playback backend, reduced to an abstract pipeline state
 * (the URI it plays, whether it is playing, its volume) plus a remembered volume.
 * Volumes are integer percentages: the backend's 0.0..1.0 range is 0..100 here, which
 * is what the player's `volumeLevel / 100.0` passes in.
 */
module Backend {
  import opened Wrappers
  import opened Metadata

  /** `RadioPlayer.MIN_VOLUME` and `MAX_VOLUME`. */
  const MIN_VOLUME: int := 0
  const MAX_VOLUME: int := 100

  predicate InVolumeRange(v: int) {
    MIN_VOLUME <= v <= MAX_VOLUME
  }

  /** A pipeline built by `parseLaunch("playbin uri=...")`. */
  datatype Pipeline = Pipeline(uri: string, playing: bool, volume: int)

  class StreamPlayerGStreamer {
    var pipeline: Option<Pipeline>
    /** The volume remembered across pipelines. */
    var volume: int
    /** The metadata record of the current stream. */
    const metadata: ObservableMetadata

    /** The remembered volume is in range and is the volume of the current pipeline. */
    ghost predicate Valid()
      reads this
    {
      InVolumeRange(volume) && (pipeline.Some? ==> pipeline.value.volume == volume)
    }

    /** No pipeline yet, full volume, empty metadata. */
    constructor ()
      ensures Valid() && pipeline == None && volume == MAX_VOLUME
      ensures fresh(metadata) && metadata.Value() == EMPTY && metadata.listeners == [] && metadata.fired == []
    {
      pipeline := None;
      volume := MAX_VOLUME;
      metadata := new ObservableMetadata();
    }

    /**
     * `setSource`: builds a new pipeline for `uri` with the remembered volume; it is
     * playing exactly when the previous pipeline was.
     */
    method SetSource(uri: string)
      requires Valid()
      modifies this
      ensures Valid() && volume == old(volume)
      ensures pipeline == Some(Pipeline(uri, old(pipeline).Some? && old(pipeline).value.playing, old(volume)))
    {
      var resumePlay := false;
      if pipeline.Some? && pipeline.value.playing {
        pipeline := Some(pipeline.value.(playing := false));
        resumePlay := true;
      }
      pipeline := Some(Pipeline(uri, false, MAX_VOLUME));
      var restored := SetVolume(volume);
      if resumePlay {
        pipeline := Some(pipeline.value.(playing := true));
      }
    }

    /** `play`: no pipeline is an illegal state; otherwise the pipeline plays. */
    method Play() returns (r: Outcome)
      requires Valid()
      modifies this
      ensures Valid() && volume == old(volume)
      ensures old(pipeline).None? ==> r == Err(IllegalState) && pipeline == old(pipeline)
      ensures old(pipeline).Some? ==> r == Ok && pipeline == Some(old(pipeline).value.(playing := true))
    {
      if pipeline.None? {
        return Err(IllegalState);
      }
      pipeline := Some(pipeline.value.(playing := true));
      r := Ok;
    }

    /** `stop`: no pipeline is an illegal state; otherwise the pipeline stops. */
    method Stop() returns (r: Outcome)
      requires Valid()
      modifies this
      ensures Valid() && volume == old(volume)
      ensures old(pipeline).None? ==> r == Err(IllegalState) && pipeline == old(pipeline)
      ensures old(pipeline).Some? ==> r == Ok && pipeline == Some(old(pipeline).value.(playing := false))
    {
      if pipeline.None? {
        return Err(IllegalState);
      }
      pipeline := Some(pipeline.value.(playing := false));
      r := Ok;
    }

    /**
     * `setVolume`: a level out of range is rejected and nothing changes; otherwise it
     * is remembered and applied to the current pipeline, if any.
     */
    method SetVolume(level: int) returns (r: Outcome)
      modifies this
      ensures !InVolumeRange(level) ==> r == Err(IllegalArgument) && volume == old(volume) && pipeline == old(pipeline)
      ensures InVolumeRange(level) ==> r == Ok && volume == level
                                       && pipeline == if old(pipeline).Some? then Some(old(pipeline).value.(volume := level)) else None
    {
      if level < MIN_VOLUME || level > MAX_VOLUME {
        return Err(IllegalArgument);
      }
      volume := level;
      if pipeline.Some? {
        pipeline := Some(pipeline.value.(volume := volume));
      }
      r := Ok;
    }

    /** `isPlaying`: dereferences the pipeline, so without one it fails. */
    function IsPlaying(): (r: Result<bool>)
      reads this
      ensures r.Fail? <==> pipeline.None?
      ensures r.Fail? ==> r.failure == NullPointer
      ensures r.Success? ==> r.value == pipeline.value.playing
    {
      if pipeline.None? then Fail(NullPointer) else Success(pipeline.value.playing)
    }
  }
}
