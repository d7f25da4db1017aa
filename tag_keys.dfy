/**
 * Routing of stream tags into the metadata record: the `TagKeys` table of GStreamer
 * tag names and the `updateTags` procedure, which `GStreamerStream` and
 * `AbstractStream` each carry an identical copy of. A tag list is a sequence of
 * (tag name, first value) pairs in the order the list reports its names. The
 * bitrate tag is kept as its string form, like every other tag, since the metadata
 * record stores strings.
 */
module TagRouting {
  import opened Wrappers
  import opened Metadata

  /** One tag of a tag list: its name and the first value stored under it. */
  datatype Tag = Tag(key: string, first: string)

  /** The title key; a list without it means the previous title has expired. */
  const TITLE_KEY: string := "title"

  /** A GStreamer tag name: lower-case letters joined by '-' or '_'. */
  predicate IsTagName(k: string) {
    |k| > 0 && forall i | 0 <= i < |k| :: 'a' <= k[i] <= 'z' || k[i] == '-' || k[i] == '_'
  }

  /** The `TagKeys` constants: the GStreamer tag name read for each property. */
  function KeyOf(p: Property): (k: string)
    ensures |k| > 0 && (k == TITLE_KEY <==> p == Title)
  {
    match p
    case Title => TITLE_KEY
    case Genre => "genre"
    case Organisation => "organization"
    case ExtendedComment => "extended-comment"
    case ChannelMode => "channel-mode"
    case Homepage => "homepage"
    case AudioCodec => "audio-codec"
    case Encoder => "encoder"
    case EncoderVersion => "encoder_version"
    case NominalBitrate => "nominal-bitrate"
    case Bitrate => "bitrate"
    case ContainerFormat => "container-format"
    case Country => "geo-location-country"
    case City => "geo-location-city"
  }

  /** The `switch (key)` of `updateTags`: which setter a tag name is routed to, if any. */
  function Route(key: string): (r: Option<Property>)
    ensures r.Some? ==> key == KeyOf(r.value)
  {
    if key == "audio-codec" then Some(AudioCodec)
    else if key == "bitrate" then Some(Bitrate)
    else if key == "channel-mode" then Some(ChannelMode)
    else if key == "geo-location-city" then Some(City)
    else if key == "container-format" then Some(ContainerFormat)
    else if key == "geo-location-country" then Some(Country)
    else if key == "encoder" then Some(Encoder)
    else if key == "encoder_version" then Some(EncoderVersion)
    else if key == "extended-comment" then Some(ExtendedComment)
    else if key == "genre" then Some(Genre)
    else if key == "homepage" then Some(Homepage)
    else if key == "nominal-bitrate" then Some(NominalBitrate)
    else if key == "organization" then Some(Organisation)
    else if key == TITLE_KEY then Some(Title)
    else None
  }

  /** Every table key is a GStreamer tag name. */
  lemma KeysAreTagNames(p: Property)
    ensures IsTagName(KeyOf(p))
  {
    var k := KeyOf(p);
    forall i | 0 <= i < |k| ensures 'a' <= k[i] <= 'z' || k[i] == '-' || k[i] == '_' {
      match p
      case Title =>
      case Genre =>
      case Organisation =>
      case ExtendedComment =>
      case ChannelMode =>
      case Homepage =>
      case AudioCodec =>
      case Encoder =>
      case EncoderVersion =>
      case NominalBitrate =>
      case Bitrate =>
      case ContainerFormat =>
      case Country =>
      case City =>
    }
  }

  /** Every table key is routed to its own property. */
  lemma RouteOfKey(p: Property)
    ensures Route(KeyOf(p)) == Some(p)
  {
    match p
    case Title =>
      assert KeyOf(p)[..1] == "t";
    case Genre =>
      assert KeyOf(p)[..2] == "ge" && KeyOf(p)[2] == 'n';
    case Homepage =>
      assert KeyOf(p)[..1] == "h";
    case Encoder =>
      assert |KeyOf(p)| == 7;
    case _ =>
  }

  /** The switch agrees with the table: a key is routed to `p` exactly when it is `p`'s key. */
  lemma RouteMatchesTable(key: string, p: Property)
    ensures Route(key) == Some(p) <==> key == KeyOf(p)
  {
    if key == KeyOf(p) {
      RouteOfKey(p);
    }
  }

  /** A tag routed to a setter, as the update it performs on the metadata. */
  datatype Update = Update(property: Property, value: string)

  /** The updates the loop of `updateTags` performs, one per recognised tag, in list order. */
  function KeyUpdates(tags: seq<Tag>): (us: seq<Update>)
    ensures |us| <= |tags|
  {
    if tags == [] then []
    else
      var last := tags[|tags| - 1];
      var init := KeyUpdates(tags[..|tags| - 1]);
      match Route(last.key)
      case Some(p) => init + [Update(p, last.first)]
      case None => init
  }

  /** Every routed update comes from a tag routed to that property, carrying the tag's value. */
  lemma {:induction false} KeyUpdatesFromTags(tags: seq<Tag>)
    ensures forall u | u in KeyUpdates(tags) :: exists t | t in tags :: Route(t.key) == Some(u.property) && t.first == u.value
  {
    if tags != [] {
      var init := tags[..|tags| - 1];
      KeyUpdatesFromTags(init);
      assert forall t | t in init :: t in tags;
    }
  }

  /** Whether the tag list reports a title. */
  predicate HasTitle(tags: seq<Tag>) {
    exists t | t in tags :: t.key == TITLE_KEY
  }

  /** All updates of `updateTags`: the routed tags, then a title reset when the list has no title. */
  function Updates(tags: seq<Tag>): seq<Update> {
    KeyUpdates(tags) + if HasTitle(tags) then [] else [Update(Title, "")]
  }

  /** The field values after a sequence of setter calls. */
  function Apply(f: Fields, us: seq<Update>): Fields {
    if us == [] then f
    else
      var last := us[|us| - 1];
      Set(Apply(f, us[..|us| - 1]), last.property, last.value)
  }

  /** The changes fired by a sequence of setter calls, in call order. */
  function Events(f: Fields, us: seq<Update>): seq<PropertyChange> {
    if us == [] then []
    else
      var last := us[|us| - 1];
      Events(f, us[..|us| - 1]) + SetterEvents(Apply(f, us[..|us| - 1]), last.property, last.value)
  }

  /** The field values after `updateTags`. */
  function ApplyTags(f: Fields, tags: seq<Tag>): Fields {
    Apply(f, Updates(tags))
  }

  /** A field that no update targets keeps its value. */
  lemma {:induction false} ApplyUntouched(f: Fields, us: seq<Update>, q: Property)
    requires forall u | u in us :: u.property != q
    ensures Get(Apply(f, us), q) == Get(f, q)
  {
    if us != [] {
      assert forall u | u in us[..|us| - 1] :: u in us;
      ApplyUntouched(f, us[..|us| - 1], q);
      SetFrame(Apply(f, us[..|us| - 1]), us[|us| - 1].property, us[|us| - 1].value);
    }
  }

  /** Apart from the title, a field whose tag name is absent from the list keeps its value. */
  lemma AbsentKeyUnchanged(f: Fields, tags: seq<Tag>, q: Property)
    requires q != Title
    requires forall t | t in tags :: t.key != KeyOf(q)
    ensures Get(ApplyTags(f, tags), q) == Get(f, q)
  {
    KeyUpdatesFromTags(tags);
    forall u | u in Updates(tags) ensures u.property != q {
      if u in KeyUpdates(tags) {
        var t :| t in tags && Route(t.key) == Some(u.property) && t.first == u.value;
        RouteMatchesTable(t.key, u.property);
      }
    }
    ApplyUntouched(f, Updates(tags), q);
  }

  /** Unrecognised tag names change no field: dropping them gives the same result. */
  lemma {:induction false} UnknownKeysIgnored(tags: seq<Tag>, t: Tag)
    requires Route(t.key) == None
    ensures KeyUpdates(tags + [t]) == KeyUpdates(tags)
    ensures HasTitle(tags + [t]) == HasTitle(tags)
    ensures Updates(tags + [t]) == Updates(tags)
  {
    assert (tags + [t])[..|tags|] == tags;
    if HasTitle(tags) {
      var w :| w in tags && w.key == TITLE_KEY;
      assert w in tags + [t];
    }
  }

  /** A list without "title" leaves the title empty. */
  lemma MissingTitleResets(f: Fields, tags: seq<Tag>)
    requires !HasTitle(tags)
    ensures ApplyTags(f, tags).title == ""
  {
    var us := Updates(tags);
    assert us[..|us| - 1] == KeyUpdates(tags);
  }

  /** Update `k` sets the title and no later update does. */
  predicate LastTitleAt(us: seq<Update>, k: int) {
    0 <= k < |us| && us[k].property == Title && forall j | k < j < |us| :: us[j].property != Title
  }

  /** The last title update wins. */
  lemma {:induction false} LastTitleUpdateWins(f: Fields, us: seq<Update>, k: int)
    requires LastTitleAt(us, k)
    ensures Apply(f, us).title == us[k].value
  {
    var last := us[|us| - 1];
    SetFrame(Apply(f, us[..|us| - 1]), last.property, last.value);
    if k < |us| - 1 {
      LastTitleUpdateWins(f, us[..|us| - 1], k);
    }
  }

  /** The last tag named "title" produces the last title update. */
  lemma {:induction false} TitleTagRouted(tags: seq<Tag>, i: int)
    requires 0 <= i < |tags| && tags[i].key == TITLE_KEY
    requires forall j | i < j < |tags| :: tags[j].key != TITLE_KEY
    ensures exists k :: LastTitleAt(KeyUpdates(tags), k) && KeyUpdates(tags)[k].value == tags[i].first
  {
    var n := |tags| - 1;
    var init := KeyUpdates(tags[..n]);
    var us := KeyUpdates(tags);
    if i == n {
      RouteOfKey(Title);
      assert us == init + [Update(Title, tags[i].first)];
      assert LastTitleAt(us, |us| - 1);
    } else {
      TitleTagRouted(tags[..n], i);
      var k :| LastTitleAt(init, k) && init[k].value == tags[i].first;
      match Route(tags[n].key)
      case Some(p) =>
        RouteMatchesTable(tags[n].key, Title);
        assert us == init + [Update(p, tags[n].first)];
        assert LastTitleAt(us, k);
      case None =>
        assert LastTitleAt(us, k);
    }
  }

  /** A list with "title" leaves the title equal to that tag's first value. */
  lemma PresentTitleStored(f: Fields, tags: seq<Tag>, i: int)
    requires 0 <= i < |tags| && tags[i].key == TITLE_KEY
    requires forall j | i < j < |tags| :: tags[j].key != TITLE_KEY
    ensures ApplyTags(f, tags).title == tags[i].first
  {
    assert HasTitle(tags) by { assert tags[i] in tags; }
    assert Updates(tags) == KeyUpdates(tags);
    TitleTagRouted(tags, i);
    var k :| LastTitleAt(KeyUpdates(tags), k) && KeyUpdates(tags)[k].value == tags[i].first;
    LastTitleUpdateWins(f, KeyUpdates(tags), k);
  }

  /** One more setter call extends the values and the change log by that call's effect. */
  lemma ApplySnoc(f: Fields, us: seq<Update>, u: Update)
    ensures Apply(f, us + [u]) == Set(Apply(f, us), u.property, u.value)
    ensures Events(f, us + [u]) == Events(f, us) + SetterEvents(Apply(f, us), u.property, u.value)
  {
    assert (us + [u])[..|us|] == us;
  }

  /** After one more setter call the values and the log are those of the extended call sequence. */
  lemma StepExtends(f0: Fields, log0: seq<PropertyChange>, done: seq<Update>, u: Update,
                    before: Fields, after: Fields, fired: seq<PropertyChange>)
    requires before == Apply(f0, done)
    requires after == Set(before, u.property, u.value)
    requires fired == log0 + Events(f0, done) + SetterEvents(before, u.property, u.value)
    ensures after == Apply(f0, done + [u])
    ensures fired == log0 + Events(f0, done + [u])
  {
    ApplySnoc(f0, done, u);
    Metadata.AppendAssociative(log0, Events(f0, done), SetterEvents(before, u.property, u.value));
  }

  /** One more tag extends the routed updates by that tag's update, if it has one. */
  lemma KeyUpdatesSnoc(tags: seq<Tag>, i: int)
    requires 0 <= i < |tags|
    ensures KeyUpdates(tags[..i + 1]) == KeyUpdates(tags[..i]) + match Route(tags[i].key)
                                                                case Some(p) => [Update(p, tags[i].first)]
                                                                case None => []
  {
    assert tags[..i + 1][..i] == tags[..i];
  }

  /**
   * `updateTags(tagList)`: each recognised tag calls its setter with the tag's first
   * value, in list order; afterwards, a list without "title" resets the title to "".
   */
  method UpdateTags(md: ObservableMetadata, tags: seq<Tag>)
    modifies md
    ensures md.Value() == ApplyTags(old(md.Value()), tags)
    ensures md.fired == old(md.fired) + Events(old(md.Value()), Updates(tags))
    ensures md.listeners == old(md.listeners) && md.streamUri == old(md.streamUri)
  {
    ghost var f0, log0 := md.Value(), md.fired;
    ghost var done: seq<Update> := [];
    var i := 0;
    while i < |tags|
      invariant 0 <= i <= |tags| && done == KeyUpdates(tags[..i])
      invariant md.Value() == Apply(f0, done) && md.fired == log0 + Events(f0, done)
      invariant md.listeners == old(md.listeners) && md.streamUri == old(md.streamUri)
    {
      var tag := tags[i];
      KeyUpdatesSnoc(tags, i);
      var route := Route(tag.key);
      if route.Some? {
        var u := Update(route.value, tag.first);
        ghost var before := md.Value();
        md.SetProperty(u.property, u.value);
        StepExtends(f0, log0, done, u, before, md.Value(), md.fired);
        done := done + [u];
      }
      i := i + 1;
    }
    assert tags[..i] == tags;
    if !HasTitle(tags) {
      var u := Update(Title, "");
      ghost var before := md.Value();
      md.SetTitle("");
      StepExtends(f0, log0, done, u, before, md.Value(), md.fired);
      assert Updates(tags) == done + [u];
    } else {
      assert Updates(tags) == done;
    }
  }
}
