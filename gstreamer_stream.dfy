/**
 * `GStreamerStream`: a PlayBin together with the metadata record its tag messages
 * update. Only the null checks of the constructors and the tag update are modelled.
 */
module GStreamer {
  import opened Wrappers
  import opened Metadata
  import opened TagRouting

  /** A GStreamer PlayBin, identified by the URI it plays; its internals are not modelled. */
  datatype PlayBin = PlayBin(uri: string)

  class GStreamerStream {
    const source: PlayBin
    const tags: ObservableMetadata

    constructor Of(source: PlayBin, tags: ObservableMetadata)
      ensures this.source == source && this.tags == tags
    {
      this.source := source;
      this.tags := tags;
    }

    /** `GStreamerStream(PlayBin)`: a null PlayBin is rejected; otherwise the stream gets new, empty metadata. */
    static method New(source: Option<PlayBin>) returns (r: Result<GStreamerStream>)
      ensures source.None? <==> r == Fail(NullPointer)
      ensures source.Some? ==> r.Success? && r.value.source == source.value && fresh(r.value)
                               && fresh(r.value.tags) && r.value.tags.Value() == EMPTY && r.value.tags.fired == []
    {
      var md := new ObservableMetadata();
      if source.None? {
        return Fail(NullPointer);
      }
      var s := new GStreamerStream.Of(source.value, md);
      r := Success(s);
    }

    /**
     * `GStreamerStream(PlayBin, ObservableMetadata)`: the metadata is checked first, then
     * the PlayBin; the given metadata is shared, not copied.
     */
    static method WithMetadata(source: Option<PlayBin>, tags: Option<ObservableMetadata>)
      returns (r: Result<GStreamerStream>)
      ensures tags.None? || source.None? <==> r == Fail(NullPointer)
      ensures tags.Some? && source.Some? ==>
                r.Success? && fresh(r.value) && r.value.tags == tags.value && r.value.source == source.value
    {
      if tags.None? || source.None? {
        return Fail(NullPointer);
      }
      var s := new GStreamerStream.Of(source.value, tags.value);
      r := Success(s);
    }

    /** `updateTags`: the tags of one bus message are routed into the metadata. */
    method UpdateTags(tagList: seq<Tag>)
      modifies tags
      ensures tags.Value() == ApplyTags(old(tags.Value()), tagList)
      ensures tags.fired == old(tags.fired) + Events(old(tags.Value()), Updates(tagList))
      ensures tags.listeners == old(tags.listeners) && tags.streamUri == old(tags.streamUri)
    {
      TagRouting.UpdateTags(tags, tagList);
    }
  }
}
