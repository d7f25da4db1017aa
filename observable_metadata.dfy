/**
 * `ObservableMetadata`: the fourteen string tags of the current stream, each set by
 * its own setter, which then fires a bound-property change (JavaBeans 1.01, section
 * 7.4). Change support is modelled as the log `fired` of changes actually delivered:
 * a change whose old and new values are equal is not delivered.
 */
module Metadata {
  import opened Wrappers

  /** The fourteen bound properties. */
  datatype Property =
    | Title | Genre | Organisation | ExtendedComment | ChannelMode | Homepage | AudioCodec
    | Encoder | EncoderVersion | NominalBitrate | Bitrate | ContainerFormat | Country | City

  /** The `PROP_` constants listeners use to tell properties apart. */
  function PropName(p: Property): (name: string)
    ensures |name| > 0 && 'a' <= name[0] <= 'z'
  {
    match p
    case Title => "title"
    case Genre => "genre"
    case Organisation => "organisation"
    case ExtendedComment => "extendedComment"
    case ChannelMode => "channelMode"
    case Homepage => "homepage"
    case AudioCodec => "audioCodec"
    case Encoder => "encoder"
    case EncoderVersion => "encoderVersion"
    case NominalBitrate => "nominalBitrate"
    case Bitrate => "bitrate"
    case ContainerFormat => "containerFormat"
    case Country => "country"
    case City => "city"
  }

  /** Distinct properties carry distinct names, so a listener can always tell which one changed. */
  lemma PropNameInjective(p: Property, q: Property)
    requires PropName(p) == PropName(q)
    ensures p == q
  {
    assert PropName(p)[0] == PropName(q)[0];
    if |PropName(p)| > 7 {
      assert PropName(p)[..8] == PropName(q)[..8];
    }
  }

  /** The values of the fourteen fields. */
  datatype Fields = Fields(
    title: string, genre: string, organisation: string, extendedComment: string,
    channelMode: string, homepage: string, audioCodec: string, encoder: string,
    encoderVersion: string, nominalBitrate: string, bitrate: string,
    containerFormat: string, country: string, city: string)

  /** Every field starts as the empty string. */
  const EMPTY := Fields("", "", "", "", "", "", "", "", "", "", "", "", "", "")

  /** The getter of a property. */
  function Get(f: Fields, p: Property): string {
    match p
    case Title => f.title
    case Genre => f.genre
    case Organisation => f.organisation
    case ExtendedComment => f.extendedComment
    case ChannelMode => f.channelMode
    case Homepage => f.homepage
    case AudioCodec => f.audioCodec
    case Encoder => f.encoder
    case EncoderVersion => f.encoderVersion
    case NominalBitrate => f.nominalBitrate
    case Bitrate => f.bitrate
    case ContainerFormat => f.containerFormat
    case Country => f.country
    case City => f.city
  }

  /**
   * What a setter stores. Every setter stores its argument in its own field, except
   * `setEncoderVersion`, which stores the current genre.
   */
  function Set(f: Fields, p: Property, v: string): Fields {
    match p
    case Title => f.(title := v)
    case Genre => f.(genre := v)
    case Organisation => f.(organisation := v)
    case ExtendedComment => f.(extendedComment := v)
    case ChannelMode => f.(channelMode := v)
    case Homepage => f.(homepage := v)
    case AudioCodec => f.(audioCodec := v)
    case Encoder => f.(encoder := v)
    case EncoderVersion => f.(encoderVersion := f.genre)
    case NominalBitrate => f.(nominalBitrate := v)
    case Bitrate => f.(bitrate := v)
    case ContainerFormat => f.(containerFormat := v)
    case Country => f.(country := v)
    case City => f.(city := v)
  }

  /** A setter changes only its own field: its argument, or for the encoder version, the genre. */
  lemma SetFrame(f: Fields, p: Property, v: string)
    ensures forall q | q != p :: Get(Set(f, p, v), q) == Get(f, q)
    ensures Get(Set(f, p, v), p) == if p == EncoderVersion then f.genre else v
  {
  }

  /** Fields are equal exactly when every getter agrees. */
  lemma FieldsExtensional(f: Fields, g: Fields)
    requires forall p :: Get(f, p) == Get(g, p)
    ensures f == g
  {
    assert Get(f, Title) == Get(g, Title) && Get(f, Genre) == Get(g, Genre);
    assert Get(f, Organisation) == Get(g, Organisation) && Get(f, ExtendedComment) == Get(g, ExtendedComment);
    assert Get(f, ChannelMode) == Get(g, ChannelMode) && Get(f, Homepage) == Get(g, Homepage);
    assert Get(f, AudioCodec) == Get(g, AudioCodec) && Get(f, Encoder) == Get(g, Encoder);
    assert Get(f, EncoderVersion) == Get(g, EncoderVersion) && Get(f, NominalBitrate) == Get(g, NominalBitrate);
    assert Get(f, Bitrate) == Get(g, Bitrate) && Get(f, ContainerFormat) == Get(g, ContainerFormat);
    assert Get(f, Country) == Get(g, Country) && Get(f, City) == Get(g, City);
  }

  /** Setting a property twice to the same value is the same as setting it once. */
  lemma SetIdempotent(f: Fields, p: Property, v: string)
    ensures Set(Set(f, p, v), p, v) == Set(f, p, v)
  {
    var once := Set(f, p, v);
    SetFrame(f, p, v);
    SetFrame(once, p, v);
    forall q ensures Get(Set(once, p, v), q) == Get(once, q) {
      if q == p && p == EncoderVersion {
        assert once.genre == Get(once, Genre) == Get(f, Genre);
      }
    }
    FieldsExtensional(Set(once, p, v), once);
  }

  /** One bound-property change as a listener receives it. */
  datatype PropertyChange = PropertyChange(property: Property, oldValue: string, newValue: string)

  /** `firePropertyChange`: a change is delivered exactly when the old and new values differ. */
  function Fire(p: Property, oldValue: string, newValue: string): (evs: seq<PropertyChange>)
    ensures |evs| <= 1
    ensures evs != [] <==> oldValue != newValue
    ensures forall e | e in evs :: e.property == p && e.oldValue == oldValue && e.newValue == newValue
  {
    if oldValue == newValue then [] else [PropertyChange(p, oldValue, newValue)]
  }

  /**
   * The change a setter fires: its property, the field's previous value and the
   * setter's ARGUMENT (for `setEncoderVersion` that is not the value it stores).
   */
  function SetterEvents(f: Fields, p: Property, v: string): seq<PropertyChange> {
    Fire(p, Get(f, p), v)
  }

  /** Changes fired by `resetAllProperties`, in the order it calls the setters. */
  function ResetEvents(f: Fields): seq<PropertyChange> {
    Fire(AudioCodec, f.audioCodec, "") + Fire(Bitrate, f.bitrate, "") + Fire(City, f.city, "")
    + Fire(ChannelMode, f.channelMode, "") + Fire(Country, f.country, "")
    + Fire(ContainerFormat, f.containerFormat, "") + Fire(Encoder, f.encoder, "")
    + Fire(EncoderVersion, f.encoderVersion, "") + Fire(ExtendedComment, f.extendedComment, "")
    + Fire(Genre, f.genre, "") + Fire(Homepage, f.homepage, "")
    + Fire(NominalBitrate, f.nominalBitrate, "") + Fire(Organisation, f.organisation, "")
    + Fire(Title, f.title, "")
  }

  /**
   * Each reset change announces the empty string for a field that was non-empty,
   * reporting that field's old value; for the encoder version the announced value is not
   * the one stored.
   */
  lemma ResetEventsClearNonEmptyFields(f: Fields)
    ensures forall e | e in ResetEvents(f) :: e.newValue == "" && e.oldValue == Get(f, e.property) != ""
    ensures ResetEvents(EMPTY) == []
  {
  }

  /** Proof helper: regrouping an event log, one step of the reset's log invariant. */
  lemma AppendAssociative<T>(a: seq<T>, b: seq<T>, c: seq<T>)
    ensures (a + b) + c == a + (b + c)
  {
  }

  /** A listener registration; the JDK's change support keeps duplicates, in order. */
  type ListenerId = nat

  /** Removes the first occurrence of `l`, if any, as `PropertyChangeSupport` does. */
  function RemoveFirst(ls: seq<ListenerId>, l: ListenerId): (r: seq<ListenerId>)
    ensures l !in ls ==> r == ls
    ensures l in ls ==> |r| == |ls| - 1 && multiset(r) == multiset(ls) - multiset{l}
  {
    if ls == [] then []
    else if ls[0] == l then
      assert ls == [ls[0]] + ls[1..];
      ls[1..]
    else
      assert ls == [ls[0]] + ls[1..];
      [ls[0]] + RemoveFirst(ls[1..], l)
  }

  class ObservableMetadata {
    var title: string
    var genre: string
    var organisation: string
    var extendedComment: string
    var channelMode: string
    var homepage: string
    var audioCodec: string
    var encoder: string
    var encoderVersion: string
    var nominalBitrate: string
    var bitrate: string
    var containerFormat: string
    var country: string
    var city: string
    /** The URI of the stream these tags came from. */
    var streamUri: string
    var listeners: seq<ListenerId>
    /** Every change delivered to the listeners so far, oldest first. */
    var fired: seq<PropertyChange>

    /** The current field values, one getter per property. */
    function Value(): Fields
      reads this
    {
      Fields(title, genre, organisation, extendedComment, channelMode, homepage, audioCodec,
             encoder, encoderVersion, nominalBitrate, bitrate, containerFormat, country, city)
    }

    constructor ()
      ensures Value() == EMPTY && streamUri == "" && listeners == [] && fired == []
    {
      title, genre, organisation, extendedComment, channelMode := "", "", "", "", "";
      homepage, audioCodec, encoder, encoderVersion, nominalBitrate := "", "", "", "", "";
      bitrate, containerFormat, country, city := "", "", "", "";
      streamUri := "";
      listeners := [];
      fired := [];
    }

    /** `addPropertyChangeListener`: null is rejected; otherwise the listener is appended. */
    method AddPropertyChangeListener(pcl: Option<ListenerId>) returns (r: Outcome)
      modifies this
      ensures pcl.None? ==> r == Err(NullPointer) && listeners == old(listeners)
      ensures pcl.Some? ==> r == Ok && listeners == old(listeners) + [pcl.value]
      ensures Value() == old(Value()) && streamUri == old(streamUri) && fired == old(fired)
    {
      if pcl.None? {
        return Err(NullPointer);
      }
      listeners := listeners + [pcl.value];
      r := Ok;
    }

    /** `removePropertyChangeListener`: null or an unknown listener is ignored. */
    method RemovePropertyChangeListener(pcl: Option<ListenerId>)
      modifies this
      ensures listeners == if pcl.Some? then RemoveFirst(old(listeners), pcl.value) else old(listeners)
      ensures Value() == old(Value()) && streamUri == old(streamUri) && fired == old(fired)
    {
      if pcl.Some? {
        listeners := RemoveFirst(listeners, pcl.value);
      }
    }

    /** Records the stream the following tags belong to. */
    method SetStreamUri(uri: string)
      modifies this
      ensures streamUri == uri
      ensures Value() == old(Value()) && listeners == old(listeners) && fired == old(fired)
    {
      streamUri := uri;
    }

    /** `pcs.firePropertyChange(name, oldValue, newValue)`. */
    method FirePropertyChange(p: Property, oldValue: string, newValue: string)
      modifies this
      ensures fired == old(fired) + Fire(p, oldValue, newValue)
      ensures Value() == old(Value()) && listeners == old(listeners) && streamUri == old(streamUri)
    {
      fired := fired + Fire(p, oldValue, newValue);
    }

    method SetTitle(v: string)
      modifies this
      ensures Value() == old(Value()).(title := v)
      ensures fired == old(fired) + Fire(Title, old(title), v)
      ensures listeners == old(listeners) && streamUri == old(streamUri)
    {
      var oldValue := title;
      title := v;
      FirePropertyChange(Title, oldValue, v);
    }

    method SetGenre(v: string)
      modifies this
      ensures Value() == old(Value()).(genre := v)
      ensures fired == old(fired) + Fire(Genre, old(genre), v)
      ensures listeners == old(listeners) && streamUri == old(streamUri)
    {
      var oldValue := genre;
      genre := v;
      FirePropertyChange(Genre, oldValue, v);
    }

    method SetOrganisation(v: string)
      modifies this
      ensures Value() == old(Value()).(organisation := v)
      ensures fired == old(fired) + Fire(Organisation, old(organisation), v)
      ensures listeners == old(listeners) && streamUri == old(streamUri)
    {
      var oldValue := organisation;
      organisation := v;
      FirePropertyChange(Organisation, oldValue, v);
    }

    method SetExtendedComment(v: string)
      modifies this
      ensures Value() == old(Value()).(extendedComment := v)
      ensures fired == old(fired) + Fire(ExtendedComment, old(extendedComment), v)
      ensures listeners == old(listeners) && streamUri == old(streamUri)
    {
      var oldValue := extendedComment;
      extendedComment := v;
      FirePropertyChange(ExtendedComment, oldValue, v);
    }

    method SetChannelMode(v: string)
      modifies this
      ensures Value() == old(Value()).(channelMode := v)
      ensures fired == old(fired) + Fire(ChannelMode, old(channelMode), v)
      ensures listeners == old(listeners) && streamUri == old(streamUri)
    {
      var oldValue := channelMode;
      channelMode := v;
      FirePropertyChange(ChannelMode, oldValue, v);
    }

    method SetHomepage(v: string)
      modifies this
      ensures Value() == old(Value()).(homepage := v)
      ensures fired == old(fired) + Fire(Homepage, old(homepage), v)
      ensures listeners == old(listeners) && streamUri == old(streamUri)
    {
      var oldValue := homepage;
      homepage := v;
      FirePropertyChange(Homepage, oldValue, v);
    }

    method SetAudioCodec(v: string)
      modifies this
      ensures Value() == old(Value()).(audioCodec := v)
      ensures fired == old(fired) + Fire(AudioCodec, old(audioCodec), v)
      ensures listeners == old(listeners) && streamUri == old(streamUri)
    {
      var oldValue := audioCodec;
      audioCodec := v;
      FirePropertyChange(AudioCodec, oldValue, v);
    }

    method SetEncoder(v: string)
      modifies this
      ensures Value() == old(Value()).(encoder := v)
      ensures fired == old(fired) + Fire(Encoder, old(encoder), v)
      ensures listeners == old(listeners) && streamUri == old(streamUri)
    {
      var oldValue := encoder;
      encoder := v;
      FirePropertyChange(Encoder, oldValue, v);
    }

    /** Stores the current genre (not `v`), yet reports `v` as the new value. */
    method SetEncoderVersion(v: string)
      modifies this
      ensures Value() == old(Value()).(encoderVersion := old(genre))
      ensures fired == old(fired) + Fire(EncoderVersion, old(encoderVersion), v)
      ensures listeners == old(listeners) && streamUri == old(streamUri)
    {
      var oldValue := encoderVersion;
      encoderVersion := genre;
      FirePropertyChange(EncoderVersion, oldValue, v);
    }

    method SetNominalBitrate(v: string)
      modifies this
      ensures Value() == old(Value()).(nominalBitrate := v)
      ensures fired == old(fired) + Fire(NominalBitrate, old(nominalBitrate), v)
      ensures listeners == old(listeners) && streamUri == old(streamUri)
    {
      var oldValue := nominalBitrate;
      nominalBitrate := v;
      FirePropertyChange(NominalBitrate, oldValue, v);
    }

    method SetBitrate(v: string)
      modifies this
      ensures Value() == old(Value()).(bitrate := v)
      ensures fired == old(fired) + Fire(Bitrate, old(bitrate), v)
      ensures listeners == old(listeners) && streamUri == old(streamUri)
    {
      var oldValue := bitrate;
      bitrate := v;
      FirePropertyChange(Bitrate, oldValue, v);
    }

    method SetContainerFormat(v: string)
      modifies this
      ensures Value() == old(Value()).(containerFormat := v)
      ensures fired == old(fired) + Fire(ContainerFormat, old(containerFormat), v)
      ensures listeners == old(listeners) && streamUri == old(streamUri)
    {
      var oldValue := containerFormat;
      containerFormat := v;
      FirePropertyChange(ContainerFormat, oldValue, v);
    }

    method SetCountry(v: string)
      modifies this
      ensures Value() == old(Value()).(country := v)
      ensures fired == old(fired) + Fire(Country, old(country), v)
      ensures listeners == old(listeners) && streamUri == old(streamUri)
    {
      var oldValue := country;
      country := v;
      FirePropertyChange(Country, oldValue, v);
    }

    method SetCity(v: string)
      modifies this
      ensures Value() == old(Value()).(city := v)
      ensures fired == old(fired) + Fire(City, old(city), v)
      ensures listeners == old(listeners) && streamUri == old(streamUri)
    {
      var oldValue := city;
      city := v;
      FirePropertyChange(City, oldValue, v);
    }

    /** Calls the setter of property `p`: the `switch` of a tag update dispatches through here. */
    method SetProperty(p: Property, v: string)
      modifies this
      ensures Value() == Set(old(Value()), p, v)
      ensures fired == old(fired) + SetterEvents(old(Value()), p, v)
      ensures listeners == old(listeners) && streamUri == old(streamUri)
    {
      match p
      case Title => SetTitle(v);
      case Genre => SetGenre(v);
      case Organisation => SetOrganisation(v);
      case ExtendedComment => SetExtendedComment(v);
      case ChannelMode => SetChannelMode(v);
      case Homepage => SetHomepage(v);
      case AudioCodec => SetAudioCodec(v);
      case Encoder => SetEncoder(v);
      case EncoderVersion => SetEncoderVersion(v);
      case NominalBitrate => SetNominalBitrate(v);
      case Bitrate => SetBitrate(v);
      case ContainerFormat => SetContainerFormat(v);
      case Country => SetCountry(v);
      case City => SetCity(v);
    }

    /**
     * `resetAllProperties`: every field becomes "" except `encoderVersion`, which is set
     * before the genre is cleared and so keeps the pre-reset genre.
     */
    method ResetAllProperties()
      modifies this
      ensures Value() == EMPTY.(encoderVersion := old(genre))
      ensures fired == old(fired) + ResetEvents(old(Value()))
      ensures listeners == old(listeners) && streamUri == old(streamUri)
    {
      ghost var f0, log0 := Value(), fired;
      SetAudioCodec("");
      ghost var evs := Fire(AudioCodec, f0.audioCodec, "");
      SetBitrate("");
      AppendAssociative(log0, evs, Fire(Bitrate, f0.bitrate, ""));
      evs := evs + Fire(Bitrate, f0.bitrate, "");
      SetCity("");
      AppendAssociative(log0, evs, Fire(City, f0.city, ""));
      evs := evs + Fire(City, f0.city, "");
      SetChannelMode("");
      AppendAssociative(log0, evs, Fire(ChannelMode, f0.channelMode, ""));
      evs := evs + Fire(ChannelMode, f0.channelMode, "");
      SetCountry("");
      AppendAssociative(log0, evs, Fire(Country, f0.country, ""));
      evs := evs + Fire(Country, f0.country, "");
      SetContainerFormat("");
      AppendAssociative(log0, evs, Fire(ContainerFormat, f0.containerFormat, ""));
      evs := evs + Fire(ContainerFormat, f0.containerFormat, "");
      SetEncoder("");
      AppendAssociative(log0, evs, Fire(Encoder, f0.encoder, ""));
      evs := evs + Fire(Encoder, f0.encoder, "");
      SetEncoderVersion("");
      AppendAssociative(log0, evs, Fire(EncoderVersion, f0.encoderVersion, ""));
      evs := evs + Fire(EncoderVersion, f0.encoderVersion, "");
      SetExtendedComment("");
      AppendAssociative(log0, evs, Fire(ExtendedComment, f0.extendedComment, ""));
      evs := evs + Fire(ExtendedComment, f0.extendedComment, "");
      SetGenre("");
      AppendAssociative(log0, evs, Fire(Genre, f0.genre, ""));
      evs := evs + Fire(Genre, f0.genre, "");
      SetHomepage("");
      AppendAssociative(log0, evs, Fire(Homepage, f0.homepage, ""));
      evs := evs + Fire(Homepage, f0.homepage, "");
      SetNominalBitrate("");
      AppendAssociative(log0, evs, Fire(NominalBitrate, f0.nominalBitrate, ""));
      evs := evs + Fire(NominalBitrate, f0.nominalBitrate, "");
      SetOrganisation("");
      AppendAssociative(log0, evs, Fire(Organisation, f0.organisation, ""));
      evs := evs + Fire(Organisation, f0.organisation, "");
      SetTitle("");
      AppendAssociative(log0, evs, Fire(Title, f0.title, ""));
      evs := evs + Fire(Title, f0.title, "");
    }
  }
}
