/**
 * `AbstractStream`: the base of the playback and recording streams. It sets the URI
 * of the PlayBin its subclass supplies and keeps its own metadata record, which its
 * copy of the tag update writes into.
 */
module StreamBase {
  import opened Metadata
  import opened TagRouting

  class AbstractStream {
    /** The URI set on the subclass's PlayBin. */
    var streamUri: string
    const tags: ObservableMetadata

    /** `AbstractStream(URI)`: the PlayBin plays `source`; the metadata starts empty. */
    constructor (source: string)
      ensures streamUri == source
      ensures fresh(tags) && tags.Value() == EMPTY && tags.fired == [] && tags.listeners == []
    {
      streamUri := source;
      tags := new ObservableMetadata();
    }

    /** `updateTags`: the tags of one bus message are routed into the metadata. */
    method UpdateTags(tagList: seq<Tag>)
      modifies tags
      ensures tags.Value() == ApplyTags(old(tags.Value()), tagList)
      ensures tags.fired == old(tags.fired) + Events(old(tags.Value()), Updates(tagList))
      ensures tags.listeners == old(tags.listeners) && tags.streamUri == old(tags.streamUri)
    {
      TagRouting.UpdateTags(tags, tagList);
    }
  }
}
