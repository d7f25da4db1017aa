# NetRadio core in Dafny

NetRadio is a desktop internet-radio player. This project models its core:

- **The station catalog.** `StationManager` holds the stations in a map keyed by id. It hands out ids from a counter that starts at 0. It supports adding, removing, favouriting and case-insensitive search. Each `RadioStation` is a mutable record.
- **The playback session.** `NetRadioPlayer` has a current station and a volume. It drives a GStreamer back end (`StreamPlayerGStreamer`). The back end is modelled as an abstract pipeline state: the URI, whether it is playing, and the remembered volume.
- **The live-metadata record and its tag routing.** `ObservableMetadata` holds fourteen string fields and fires one bound-property change per setter call. The `updateTags` loops in `GStreamerStream` and `AbstractStream` route each GStreamer tag key to one setter through the `TagKeys` table. The player's tag listener then copies genre and bitrate into the catalog, but only while the stream that carries the tags is the one being played.
- **The façade.** `ModelAdapterImpl` forwards to the player and keeps a subscriber set, a cached search result and a highlighted station. It notifies the subscribers with `ModelEvent`s.
- **The derived lists behind the station tables.** The favourites filter, the top-N most played, the `StationData` rows and the next/previous row selection of `StationExplorerController`.
- **The CSV record mapping.** `StationLoader` and `OpenCSVEntry`.

How the model represents the source:

- **Mutable objects are classes.** `RadioStation`, `StationManager`, `NetRadioPlayer`, `StreamPlayerGStreamer`, `ObservableMetadata`, the two stream classes, `ModelAdapterImpl` and `StationExplorerController` are Dafny classes with the source's fields.
- **Methods are specified by value functions.** Each method's `ensures` ties its new state to a function on values: `Catalog()`, `Value()`, `ApplyTags`, `Refreshed`, `StepNext`. The source's promises are proved about those functions as lemmas.
- **Exceptions are results.** Java exceptions become `Outcome`/`Result` values whose failure is `IllegalArgument`, `IllegalState` or `NullPointer`. Where the source checks for `null` (`Objects.requireNonNull`, the player's null checks), the argument is an `Option`.
- **Notifications are recorded.** Events and property changes are appended to ghost-free logs: `published`, `deliveries` and `fired`. The subscriber handlers and the property-change listeners are then identified by number.
- **Clock and tags.** The clock (`LocalDateTime.now()`) is a `Timestamp` parameter. A GStreamer tag list is a sequence of (key, first value) pairs, delivered by an explicit call (`NetRadioPlayer.ReceiveTags`). As written, `StreamPlayerGStreamer` holds no metadata, and its bus TAG callback (StreamPlayerGStreamer.java:181-208) only prints the tags. The model gives the back end a metadata record, and `ReceiveTags` and `RouteTags` route the tags into it with the loop of `GStreamerStream.updateTags`.

Where the code and its documentation disagree:

- **Code that does not compile.**
  - `NetRadioPlayer` calls `stations.setGenre`, `stations.setBitrate`, `stations.shutdown`, `getStreamUri()` and `playback.getObservableMetadata()`. None of these exists.
  - The `ModelEvent` enum (ModelAdapter.java:24-36) has no `NEXT_HIGHLIGHTED_STATION_REQUESTED` or `PREVIOUS_HIGHLIGHTED_STATION_REQUESTED`. `ModelAdapterImpl` publishes both (ModelAdapterImpl.java:258, :268) and `StationExplorerController` handles both (StationExplorerController.java:144, :147).
  - `NetRadioPlayer` (NetRadioPlayer.java:37, :58) and `StationExplorerController` (StationExplorerController.java:110) call `getUri()` and `getGenre()` on a `Station`, whose URI getter is `getURI` (Station.java:22) and which has no genre getter. The model reads the `uri` and `genre` fields.
  - `StreamPlayerGStreamer` uses `MIN_VOLUME` and `MAX_VOLUME` (StreamPlayerGStreamer.java:25, :107), but its own declarations are commented out and `StreamPlayer` declares none. The model uses the 0 and 100 of `RadioPlayer`.
  - `StationLoader.buildStation` calls an eight-argument `RadioStation` constructor, and `RadioStation` has no genre.
  - The model gives each of these its evident meaning:
    - per-id field setters, as declared in `MutableStation`;
    - a `streamUri` field in the metadata;
    - a `Restore` constructor;
    - a `genre` field;
    - `StationManager.shutdown` (NetRadioPlayer.java:228) becomes Catalog.StationManager.Shutdown, which stores every station as a CSV entry, as `StationLoader.storeStations` does;
    - `Adapter.ModelEvent` carries the two highlight requests as its last two values.
- **Bitrate type.**
  - `GStreamerStream.updateTags` passes the bitrate tag as an `int`, but `ObservableMetadata.setBitrate` takes a `String`.
  - The model keeps every metadata field a string, including the bitrate.
  - The player's listener casts the new value with `(int)`. The model parses it as a decimal Java `int` instead and pushes nothing when it does not parse.
- **Ids after a reload.** The id counter starts at 0 on every launch (StationManager.java:11), but the loaded stations keep their saved ids. As written, the first `addStation` after loading a station with id 0 replaces it: with assertions disabled, the `assert` at StationManager.java:73 does not stop the `put`. Catalog.StationManager.AddStation describes that overwrite, and the player and the façade inherit it: they build the catalog with the plain constructor, as NetRadioPlayer.java:16 does. Their `addStation` promises a fresh id only when the counter was already past every stored id. Catalog.StationManager.Seeded is the corrected constructor, which starts the counter past every loaded id (see Findings).
- **Subscribing the listener.** `StreamPlayerGStreamer.subscribeToStreamTags` is empty. The model registers the player's listener on the back end's metadata, as `NetRadioPlayer.subscribeToTagUpdates` intends.

## Model

| member | source | states |
|---|---|---|
| Stations.FavouritedIdempotent | src/main/java/codes/lemon/netradio/model/RadioStation.java:105-107 | after `setFavourite(b)` the flag is `b`, and setting it twice is setting it once |
| Stations.PlayedChangesOnlyHistory | src/main/java/codes/lemon/netradio/model/RadioStation.java:115-118 | marking a station played adds exactly one to its play count, records the given instant, and changes nothing else |
| Stations.RadioStation.constructor | src/main/java/codes/lemon/netradio/model/RadioStation.java:6-21 | a new station has the given id, name and URI, no last-played time, play count 0, bitrate -1, empty genre, and is not a favourite |
| Stations.RadioStation.Restore | src/main/java/codes/lemon/netradio/model/StationLoader.java:86-89 | the all-fields constructor reproduces the given station value |
| Stations.RadioStation.SetFavourite | src/main/java/codes/lemon/netradio/model/RadioStation.java:105-107 | only the favourite flag changes, to the argument |
| Stations.RadioStation.MarkPlayed | src/main/java/codes/lemon/netradio/model/RadioStation.java:115-118 | the station takes the value `Played(old, now)` |
| Stations.RadioStation.SetGenre | src/main/java/codes/lemon/netradio/model/MutableStation.java:30 | only the genre changes, to the argument |
| Stations.RadioStation.SetBitrate | src/main/java/codes/lemon/netradio/model/MutableStation.java:14 | only the bitrate changes, to the argument |
| Text.ToLower | src/main/java/codes/lemon/netradio/model/StationManager.java:115-123 | lower-casing keeps the length and maps each character to its ASCII lower case |
| Text.ToLowerIdempotent | src/main/java/codes/lemon/netradio/model/StationManager.java:115-123 | lower-casing a lower-cased string changes nothing |
| Text.ContainsIffOccurrence | src/main/java/codes/lemon/netradio/model/StationManager.java:115-123 | `contains` holds exactly when the term occurs at some position |
| Text.ContainsIgnoringCase | src/main/java/codes/lemon/netradio/model/StationManager.java:115-123 | after lower-casing both strings, `contains` holds exactly when the term occurs at some position ignoring case |
| Catalog.IdMap | src/main/java/codes/lemon/netradio/model/StationManager.java:27-33 | every loaded station is keyed, each key maps to a loaded station with that id |
| Catalog.IdMapKeepsLast | src/main/java/codes/lemon/netradio/model/StationManager.java:27-33 | a station not followed by another with the same id is the one stored under its id (later `put`s win) |
| Catalog.EmptyTermMatchesAll | src/main/java/codes/lemon/netradio/model/StationManager.java:113-130 | the empty search term matches every station |
| Catalog.SearchIgnoresCase | src/main/java/codes/lemon/netradio/model/StationManager.java:113-130 | a station matches the lower-cased term exactly when the term occurs, ignoring case, in its URI or its name |
| Catalog.PickKey | src/main/java/codes/lemon/netradio/model/StationManager.java:52-54 | an element of a non-empty key set, standing for the map's unspecified iteration order |
| Catalog.StationManager.constructor | src/main/java/codes/lemon/netradio/model/StationManager.java:11-17 | the map keys the loaded stations by id and the id counter starts at 0 |
| Catalog.StationManager.MapIdToStation | src/main/java/codes/lemon/netradio/model/StationManager.java:27-33 | the loop builds exactly `IdMap` of the list |
| Catalog.StationManager.GetStation | src/main/java/codes/lemon/netradio/model/StationManager.java:41-46 | non-null exactly when the id is stored, and then the station stored under it, which carries that id |
| Catalog.StationManager.GetAllStations | src/main/java/codes/lemon/netradio/model/StationManager.java:52-54 | one entry per key, each the station stored under it, none repeated |
| Catalog.StationManager.AddStation | src/main/java/codes/lemon/netradio/model/StationManager.java:65-76 | a fresh default station is stored under the old counter, replacing any station already there, and the old counter is returned; the counter grows by one and no other entry changes; when the counter was past every stored id it stays so and the id was free |
| Catalog.StationManager.Seeded | src/main/java/codes/lemon/netradio/model/StationManager.java:11-17 | the loaded stations keyed by id, with the counter one past the largest loaded id, so that no stored id reaches it |
| Catalog.NextFreeId | src/main/java/codes/lemon/netradio/model/StationManager.java:11 | at least 0, above every loaded id, and either 0 or one more than some loaded id |
| Catalog.AssertionAsWrittenRejectsFirstId | src/main/java/codes/lemon/netradio/model/RadioStation.java:18 | the first `addStation` on a fresh catalog returns id 0, which the constructor's `id > 0` rejects and `id >= 0` accepts |
| Catalog.ReloadedFirstAddOverwrites | src/main/java/codes/lemon/netradio/model/StationManager.java:65-76 | with the counter starting at 0 (StationManager.java:11), the first add after loading a station with id 0 returns id 0, and the loaded station is no longer stored |
| Catalog.ReloadedFirstAddKeepsSaved | src/main/java/codes/lemon/netradio/model/StationManager.java:65-76 | with the seeded counter, the first add returns an id no loaded station has, and every loaded id stays stored |
| Catalog.StationManager.RemoveStation | src/main/java/codes/lemon/netradio/model/StationManager.java:84-88 | true exactly when the id was stored; afterwards it is absent and every other entry is unchanged |
| Catalog.StationManager.SetFavourite | src/main/java/codes/lemon/netradio/model/StationManager.java:98-103 | a missing id changes nothing; a stored id changes only that station's favourite flag |
| Catalog.StationManager.SetGenre | src/main/java/codes/lemon/netradio/model/NetRadioPlayer.java:41 | a missing id changes nothing; a stored id changes only that station's genre |
| Catalog.StationManager.SetBitrate | src/main/java/codes/lemon/netradio/model/NetRadioPlayer.java:42 | a missing id changes nothing; a stored id changes only that station's bitrate |
| Catalog.StationManager.FindStation | src/main/java/codes/lemon/netradio/model/StationManager.java:113-130 | exactly the stored stations whose lower-cased URI or name contains the lower-cased term, each once |
| Catalog.StationManager.Shutdown | src/main/java/codes/lemon/netradio/model/NetRadioPlayer.java:226-229 | one CSV entry per stored station, each the entry of a stored station |
| Decimal.Parse | src/main/java/codes/lemon/netradio/controller/StationData.java:47-49 | `Integer.parseInt` yields only values within the Java `int` range |
| Decimal.DigitsValueOfDigits | src/main/java/codes/lemon/netradio/controller/StationData.java:33 | reading back the decimal digits of a natural number gives the number |
| Decimal.Render | src/main/java/codes/lemon/netradio/controller/StationData.java:33 | a non-empty string that starts with '-' exactly for negative values, digits otherwise, with no leading zero |
| Decimal.ParseRender | src/main/java/codes/lemon/netradio/controller/StationData.java:33 | parsing the decimal rendering of any Java `int` gives it back |
| Decimal.RenderInjective | src/main/java/codes/lemon/netradio/controller/StationData.java:33 | distinct Java `int`s render to distinct strings |
| CsvEntries.RequiredHeaders | src/main/java/codes/lemon/netradio/model/OpenCSVEntry.java:16-37 | the required columns are ID, Names, URI, PlayCount, Bitrate and Favourite |
| CsvEntries.OptionalHeaders | src/main/java/codes/lemon/netradio/model/OpenCSVEntry.java:25-41 | Genre and LastPlayed are the optional columns, disjoint from the required ones |
| Loader.ToStation | src/main/java/codes/lemon/netradio/model/StationLoader.java:86-89 | each entry field lands in the same-named station field; a missing genre becomes empty |
| Loader.ToEntry | src/main/java/codes/lemon/netradio/model/StationLoader.java:99-102 | each station field lands in the same-named entry field, despite the constructor's reordered arguments |
| Loader.StoreLoadRoundTrip | src/main/java/codes/lemon/netradio/model/StationLoader.java:20-24 | a stored station is loaded back equal in value |
| Loader.LoadStoreRoundTrip | src/main/java/codes/lemon/netradio/model/StationLoader.java:86-102 | an entry with a genre survives load and store unchanged; one without a genre gets the empty genre |
| Loader.BuildStation | src/main/java/codes/lemon/netradio/model/StationLoader.java:86-89 | a fresh station with the entry's value |
| Loader.GetStations | src/main/java/codes/lemon/netradio/model/StationLoader.java:26-46 | a read failure yields no stations; otherwise one fresh station per row, in row order, each built from its row |
| Loader.StoreStations | src/main/java/codes/lemon/netradio/model/StationLoader.java:55-61 | one entry per station, in order, each the station's entry |
| Loader.GetStationsForDevelopment | src/main/java/codes/lemon/netradio/model/StationLoader.java:105-115 | five new stations with consecutive ids 0 to 4 and the listed names and URIs |
| Metadata.PropName | src/main/java/codes/lemon/netradio/model/ObservableMetadata.java:18-31 | each `PROP_` name is a non-empty identifier starting with a lower-case letter |
| Metadata.PropNameInjective | src/main/java/codes/lemon/netradio/model/ObservableMetadata.java:18-31 | the fourteen `PROP_` names are pairwise distinct |
| Metadata.SetFrame | src/main/java/codes/lemon/netradio/model/ObservableMetadata.java:155-237 | a setter changes no other field; it stores its argument, except that `setEncoderVersion` stores the genre |
| Metadata.FieldsExtensional | src/main/java/codes/lemon/netradio/model/ObservableMetadata.java:34-47 | the record is exactly its fourteen fields |
| Metadata.SetIdempotent | src/main/java/codes/lemon/netradio/model/ObservableMetadata.java:155-237 | calling a setter twice with one value leaves the fields as calling it once |
| Metadata.Fire | src/main/java/codes/lemon/netradio/model/ObservableMetadata.java:155-159 | a bound-property change carries the property, its old and its new value, and is fired exactly when the two differ |
| Metadata.ResetEventsClearNonEmptyFields | src/main/java/codes/lemon/netradio/model/ObservableMetadata.java:243-258 | each reset event announces the empty string for a field that was non-empty, with that field's old value; resetting the empty record fires nothing |
| Metadata.RemoveFirst | src/main/java/codes/lemon/netradio/model/ObservableMetadata.java:69-71 | removing a listener drops one registration of it, or nothing when it is not registered |
| Metadata.ObservableMetadata.constructor | src/main/java/codes/lemon/netradio/model/ObservableMetadata.java:34-52 | all fourteen fields start empty, with no listeners and no events |
| Metadata.ObservableMetadata.AddPropertyChangeListener | src/main/java/codes/lemon/netradio/model/ObservableMetadata.java:60-63 | null fails with NullPointer; otherwise the listener is registered (again) at the end |
| Metadata.ObservableMetadata.RemovePropertyChangeListener | src/main/java/codes/lemon/netradio/model/ObservableMetadata.java:69-71 | the first registration of the listener goes; null removes nothing |
| Metadata.ObservableMetadata.SetStreamUri | src/main/java/codes/lemon/netradio/model/NetRadioPlayer.java:37 | records the URI of the stream the tags come from, changing nothing else |
| Metadata.ObservableMetadata.FirePropertyChange | src/main/java/codes/lemon/netradio/model/ObservableMetadata.java:155-159 | appends `Fire` to the event log, changing nothing else |
| Metadata.ObservableMetadata.SetTitle | src/main/java/codes/lemon/netradio/model/ObservableMetadata.java:155-159 | title becomes the argument; a title change fires with the old and new title |
| Metadata.ObservableMetadata.SetGenre | src/main/java/codes/lemon/netradio/model/ObservableMetadata.java:161-165 | genre becomes the argument; a genre change fires |
| Metadata.ObservableMetadata.SetOrganisation | src/main/java/codes/lemon/netradio/model/ObservableMetadata.java:167-171 | organisation becomes the argument; a change fires |
| Metadata.ObservableMetadata.SetExtendedComment | src/main/java/codes/lemon/netradio/model/ObservableMetadata.java:173-177 | extended comment becomes the argument; a change fires |
| Metadata.ObservableMetadata.SetChannelMode | src/main/java/codes/lemon/netradio/model/ObservableMetadata.java:179-183 | channel mode becomes the argument; a change fires |
| Metadata.ObservableMetadata.SetHomepage | src/main/java/codes/lemon/netradio/model/ObservableMetadata.java:185-189 | homepage becomes the argument; a change fires |
| Metadata.ObservableMetadata.SetAudioCodec | src/main/java/codes/lemon/netradio/model/ObservableMetadata.java:191-195 | audio codec becomes the argument; a change fires |
| Metadata.ObservableMetadata.SetEncoder | src/main/java/codes/lemon/netradio/model/ObservableMetadata.java:197-201 | encoder becomes the argument; a change fires |
| Metadata.ObservableMetadata.SetEncoderVersion | src/main/java/codes/lemon/netradio/model/ObservableMetadata.java:203-207 | as written: encoder version takes the current genre, while the event announces the argument |
| Metadata.ObservableMetadata.SetNominalBitrate | src/main/java/codes/lemon/netradio/model/ObservableMetadata.java:209-213 | nominal bitrate becomes the argument; a change fires |
| Metadata.ObservableMetadata.SetBitrate | src/main/java/codes/lemon/netradio/model/ObservableMetadata.java:215-219 | bitrate (a string) becomes the argument; a change fires |
| Metadata.ObservableMetadata.SetContainerFormat | src/main/java/codes/lemon/netradio/model/ObservableMetadata.java:221-225 | container format becomes the argument; a change fires |
| Metadata.ObservableMetadata.SetCountry | src/main/java/codes/lemon/netradio/model/ObservableMetadata.java:227-231 | country becomes the argument; a change fires |
| Metadata.ObservableMetadata.SetCity | src/main/java/codes/lemon/netradio/model/ObservableMetadata.java:233-237 | city becomes the argument; a change fires |
| Metadata.ObservableMetadata.SetProperty | src/main/java/codes/lemon/netradio/model/ObservableMetadata.java:155-237 | the setter of any property, as `Set` and its events, for the tag loop |
| Metadata.ObservableMetadata.ResetAllProperties | src/main/java/codes/lemon/netradio/model/ObservableMetadata.java:243-258 | every field becomes empty except encoder version, which holds the genre from before the reset; one event per non-empty field, in call order |
| TagRouting.RouteOfKey | src/main/java/codes/lemon/netradio/model/GStreamerStream.java:146-160 | each `TagKeys` key is routed to its own property's setter |
| TagRouting.Route | src/main/java/codes/lemon/netradio/model/GStreamerStream.java:146-160 | a routed key is the `TagKeys` key of the property it is routed to |
| TagRouting.KeyOf | src/main/java/codes/lemon/netradio/model/GStreamerStream.java:176-196 | each key is non-empty, and only the title has the title key |
| TagRouting.KeysAreTagNames | src/main/java/codes/lemon/netradio/model/GStreamerStream.java:176-196 | each key is a GStreamer tag name: lower-case letters, '-' and '_' |
| TagRouting.RouteMatchesTable | src/main/java/codes/lemon/netradio/model/GStreamerStream.java:176-196 | a key reaches a property exactly when it is that property's `TagKeys` key ("organization" reaches organisation, "geo-location-city" reaches city) |
| TagRouting.KeyUpdatesFromTags | src/main/java/codes/lemon/netradio/model/GStreamerStream.java:144-162 | every update the loop makes comes from a tag of the list with a routed key, carrying its first value |
| TagRouting.ApplyUntouched | src/main/java/codes/lemon/netradio/model/GStreamerStream.java:144-162 | a field no update addresses keeps its value |
| TagRouting.AbsentKeyUnchanged | src/main/java/codes/lemon/netradio/model/GStreamerStream.java:144-162 | apart from title, a field whose key is absent from the tag list keeps its value |
| TagRouting.UnknownKeysIgnored | src/main/java/codes/lemon/netradio/model/GStreamerStream.java:161 | a tag with an unrecognised key changes neither the updates nor the title reset |
| TagRouting.MissingTitleResets | src/main/java/codes/lemon/netradio/model/GStreamerStream.java:167-169 | a tag list without "title" leaves the title empty |
| TagRouting.LastTitleUpdateWins | src/main/java/codes/lemon/netradio/model/GStreamerStream.java:160 | the last title update in a run of updates decides the title |
| TagRouting.TitleTagRouted | src/main/java/codes/lemon/netradio/model/GStreamerStream.java:160 | the last "title" tag yields the last title update, with that tag's value |
| TagRouting.PresentTitleStored | src/main/java/codes/lemon/netradio/model/GStreamerStream.java:160-169 | a tag list with "title" leaves the title equal to the last such tag's first value |
| TagRouting.UpdateTags | src/main/java/codes/lemon/netradio/model/GStreamerStream.java:142-170 | the loop leaves the metadata at `ApplyTags` of the old fields and fires each setter's events in tag order |
| GStreamer.GStreamerStream.Of | src/main/java/codes/lemon/netradio/model/GStreamerStream.java:31-35 | the stream holds the given PlayBin and metadata |
| GStreamer.GStreamerStream.New | src/main/java/codes/lemon/netradio/model/GStreamerStream.java:24-29 | a null PlayBin fails with NullPointer; otherwise a new stream over it |
| GStreamer.GStreamerStream.WithMetadata | src/main/java/codes/lemon/netradio/model/GStreamerStream.java:31-35 | a null PlayBin or metadata fails with NullPointer; otherwise a new stream holding both |
| GStreamer.GStreamerStream.UpdateTags | src/main/java/codes/lemon/netradio/model/GStreamerStream.java:142-170 | the held metadata takes `ApplyTags` of its old fields, with the routed setters' events |
| StreamBase.AbstractStream.constructor | src/main/java/codes/lemon/netradio/model/AbstractStream.java:17-22 | fresh empty metadata and the given source URI |
| StreamBase.AbstractStream.UpdateTags | src/main/java/codes/lemon/netradio/model/AbstractStream.java:112-140 | the same routing through the duplicate `TagKeys` table as `GStreamerStream.updateTags` |
| Backend.StreamPlayerGStreamer.constructor | src/main/java/codes/lemon/netradio/model/StreamPlayerGStreamer.java:24-33 | no pipeline, the maximum volume, and empty metadata |
| Backend.StreamPlayerGStreamer.SetSource | src/main/java/codes/lemon/netradio/model/StreamPlayerGStreamer.java:46-68 | a new pipeline for the URI at the remembered volume; it plays exactly when the previous pipeline existed and was playing |
| Backend.StreamPlayerGStreamer.Play | src/main/java/codes/lemon/netradio/model/StreamPlayerGStreamer.java:77-82 | with no pipeline: IllegalState and no change; otherwise playing |
| Backend.StreamPlayerGStreamer.Stop | src/main/java/codes/lemon/netradio/model/StreamPlayerGStreamer.java:91-97 | with no pipeline: IllegalState and no change; otherwise stopped |
| Backend.StreamPlayerGStreamer.SetVolume | src/main/java/codes/lemon/netradio/model/StreamPlayerGStreamer.java:105-119 | out of range: IllegalArgument and no change; otherwise the level is remembered and applied |
| Backend.StreamPlayerGStreamer.IsPlaying | src/main/java/codes/lemon/netradio/model/StreamPlayerGStreamer.java:136-138 | fails (NullPointer) exactly when there is no pipeline; otherwise whether it plays |
| Player.PushTag | src/main/java/codes/lemon/netradio/model/NetRadioPlayer.java:40-44 | one change on the current entry: a genre is stored, a bitrate is stored when it parses, any other change (or a failed parse, or an id no longer stored) leaves the catalog as it was; the keys and every other entry are kept |
| Player.Push | src/main/java/codes/lemon/netradio/model/NetRadioPlayer.java:34-45 | a sequence of changes keeps the catalog's keys and leaves it as it was when the station is no longer stored |
| Player.PushTouchesOnlyGenreAndBitrate | src/main/java/codes/lemon/netradio/model/NetRadioPlayer.java:37-44 | the tag listener keeps the catalog's ids, changes no other station, and changes only genre and bitrate of the current one |
| Player.PushIgnoresOtherProperties | src/main/java/codes/lemon/netradio/model/NetRadioPlayer.java:40-44 | changes of any property other than genre and bitrate leave the catalog as it was |
| Player.LastGenreWins | src/main/java/codes/lemon/netradio/model/NetRadioPlayer.java:41 | after a run of changes, the station's genre is the last genre change's new value |
| Player.NetRadioPlayer.constructor | src/main/java/codes/lemon/netradio/model/NetRadioPlayer.java:15-24 | no current station, volume at its maximum 100, the loaded catalog with its counter at 0, the tag listener registered |
| Player.NetRadioPlayer.SetStation | src/main/java/codes/lemon/netradio/model/NetRadioPlayer.java:55-64 | an unknown id fails (IllegalArgument) leaving station and source; a known one becomes current and the source moves to its URI |
| Player.NetRadioPlayer.Play | src/main/java/codes/lemon/netradio/model/NetRadioPlayer.java:70-75 | no current station: nothing happens; otherwise the back end plays and the station is marked played exactly once |
| Player.NetRadioPlayer.Stop | src/main/java/codes/lemon/netradio/model/NetRadioPlayer.java:81-86 | no current station: nothing happens; otherwise the back end stops |
| Player.NetRadioPlayer.SetVolume | src/main/java/codes/lemon/netradio/model/NetRadioPlayer.java:95-102 | outside 0..100: IllegalArgument and nothing changes; otherwise `getVolume` returns the level |
| Player.NetRadioPlayer.GetVolume | src/main/java/codes/lemon/netradio/model/NetRadioPlayer.java:110-112 | always within 0..100 and equal to the back end's volume |
| Player.NetRadioPlayer.IsPlaying | src/main/java/codes/lemon/netradio/model/NetRadioPlayer.java:205-207 | fails exactly before any station is set; otherwise whether the back end plays |
| Player.NetRadioPlayer.GetStation | src/main/java/codes/lemon/netradio/model/NetRadioPlayer.java:195-197 | the stored station for the id, or null exactly when it is absent |
| Player.NetRadioPlayer.GetAllStations | src/main/java/codes/lemon/netradio/model/NetRadioPlayer.java:130-132 | every stored station once |
| Player.NetRadioPlayer.AddStation | src/main/java/codes/lemon/netradio/model/NetRadioPlayer.java:143-147 | a null URI, then a null name, fails with NullPointer and adds nothing; otherwise the catalog's `addStation`: a new station under the old counter, replacing any station there, the counter one higher, and a fresh id whenever the counter was past every stored id |
| Player.NetRadioPlayer.RemoveStation | src/main/java/codes/lemon/netradio/model/NetRadioPlayer.java:156-158 | the catalog's `removeStation` |
| Player.NetRadioPlayer.SetStationFavouriteStatus | src/main/java/codes/lemon/netradio/model/NetRadioPlayer.java:169-171 | only the favourite flag of a stored station changes |
| Player.NetRadioPlayer.FindStation | src/main/java/codes/lemon/netradio/model/NetRadioPlayer.java:182-185 | a null term fails with NullPointer; otherwise the catalog's search |
| Player.NetRadioPlayer.OnPropertyChange | src/main/java/codes/lemon/netradio/model/NetRadioPlayer.java:34-46 | the catalog changes only when a station is current, the metadata's stream URI is its URI, and the back end plays; then genre or bitrate is copied |
| Player.NetRadioPlayer.ReceiveTags | src/main/java/codes/lemon/netradio/model/NetRadioPlayer.java:31-48 | a tag list from a stream updates the metadata as `updateTags` does, and the catalog takes the guarded genre and bitrate changes |
| Player.NetRadioPlayer.RouteTags | src/main/java/codes/lemon/netradio/model/GStreamerStream.java:142-170 | the metadata half of a tag arrival: events returned, catalog untouched |
| Player.NetRadioPlayer.Deliver | src/main/java/codes/lemon/netradio/model/NetRadioPlayer.java:34-46 | the listener run once per event in order, under the guard |
| Player.NetRadioPlayer.Shutdown | src/main/java/codes/lemon/netradio/model/NetRadioPlayer.java:226-229 | playback stops and one CSV entry is produced per stored station |
| Adapter.BroadcastReachesEachOnce | src/main/java/codes/lemon/netradio/controller/ModelAdapterImpl.java:323-327 | a notification reaches every subscriber exactly once and nobody else |
| Adapter.CountWithoutRepeats | src/main/java/codes/lemon/netradio/controller/ModelAdapterImpl.java:323-327 | in a batch without repeats each reached handler is reached once |
| Adapter.ReachedHasWitness | src/main/java/codes/lemon/netradio/controller/ModelAdapterImpl.java:323-327 | a reached handler appears in some delivery of the batch |
| Adapter.ReachedHasWitnessAt | src/main/java/codes/lemon/netradio/controller/ModelAdapterImpl.java:323-327 | the handler of every delivery is reached |
| Adapter.Prune | src/main/java/codes/lemon/netradio/controller/ModelAdapterImpl.java:171 | pruning never lengthens the cached search |
| Adapter.PruneDistributes | src/main/java/codes/lemon/netradio/controller/ModelAdapterImpl.java:171 | pruning a concatenation prunes each part in place, so the kept results stay in their order |
| Adapter.PruneKeepsOthers | src/main/java/codes/lemon/netradio/controller/ModelAdapterImpl.java:171 | `removeIf` keeps exactly the results with another id |
| Adapter.PruneAbsentIsIdentity | src/main/java/codes/lemon/netradio/controller/ModelAdapterImpl.java:171 | pruning an id absent from the results changes nothing |
| Adapter.ModelAdapterImpl.constructor | src/main/java/codes/lemon/netradio/controller/ModelAdapterImpl.java:10-29 | a fresh player, no subscribers, an empty search, no highlighted station, no events |
| Adapter.ModelAdapterImpl.NotifySubscribers | src/main/java/codes/lemon/netradio/controller/ModelAdapterImpl.java:323-327 | the event is published and broadcast to the current subscribers; nothing else changes |
| Adapter.ModelAdapterImpl.Subscribe | src/main/java/codes/lemon/netradio/controller/ModelAdapterImpl.java:41-45 | null fails with NullPointer; otherwise the handler joins the subscriber set (subscribing twice is one registration) |
| Adapter.ModelAdapterImpl.Unsubscribe | src/main/java/codes/lemon/netradio/controller/ModelAdapterImpl.java:53-55 | the handler leaves the subscriber set |
| Adapter.ModelAdapterImpl.SetStation | src/main/java/codes/lemon/netradio/controller/ModelAdapterImpl.java:64-70 | the same station again: no call, no event; otherwise forwarded: on success the station is current, the new pipeline plays its URI, playing exactly when the old one was, and STATION_CHANGED is published; on failure nothing changes and nothing is delivered; the volume, subscribers, search and highlighted station always stay |
| Adapter.ModelAdapterImpl.Play | src/main/java/codes/lemon/netradio/controller/ModelAdapterImpl.java:77-82 | before any station: NullPointer and nothing changes; already playing: the pipeline, the current station's value and the catalog stay and no event is delivered; otherwise plays, the current station becomes `Played(old, now)` (count up by one, last played now) in the catalog too when it is stored, and PLAYBACK_STARTED is published; the current station, subscribers, search and highlighted station always stay |
| Adapter.ModelAdapterImpl.Stop | src/main/java/codes/lemon/netradio/controller/ModelAdapterImpl.java:89-94 | before any station: NullPointer; not playing: the pipeline stays and no event is delivered; otherwise stops and publishes PLAYBACK_STOPPED; subscribers, search and highlighted station always stay |
| Adapter.ModelAdapterImpl.SetVolume | src/main/java/codes/lemon/netradio/controller/ModelAdapterImpl.java:105-108 | an out-of-range level fails with the volume and pipeline unchanged and no event; otherwise the volume is the level, a pipeline keeps its URI and playing flag at the new volume, and VOLUME_CHANGED is published; the current station and highlighted station stay |
| Adapter.ModelAdapterImpl.AddStation | src/main/java/codes/lemon/netradio/controller/ModelAdapterImpl.java:153-157 | a null argument fails with no event; otherwise the player's `addStation` (overwrite included, fresh when the counter was past every stored id), its id returned and STATION_ADDED published; the highlighted station stays |
| Adapter.ModelAdapterImpl.RemoveStation | src/main/java/codes/lemon/netradio/controller/ModelAdapterImpl.java:167-176 | a stored id is also pruned from the search and STATION_REMOVED published; otherwise neither, and no event is delivered; the highlighted station stays, even when it is the removed station |
| Adapter.ModelAdapterImpl.SetStationFavouriteStatus | src/main/java/codes/lemon/netradio/controller/ModelAdapterImpl.java:188-191 | the flag is set and STATION_EDITED published; the highlighted station stays |
| Adapter.ModelAdapterImpl.FindStation | src/main/java/codes/lemon/netradio/controller/ModelAdapterImpl.java:202-206 | a null term fails with no event; otherwise the results replace the cache, `getSearchResults` returns them, and SEARCH_RESULTS_READY is published; the highlighted station stays |
| Adapter.ModelAdapterImpl.SetHighlightedStation | src/main/java/codes/lemon/netradio/controller/ModelAdapterImpl.java:281-284 | the highlighted station is the lookup result, null for an unknown id; STATION_HIGHLIGHTED is published |
| Adapter.ModelAdapterImpl.ClearHighlightedStation | src/main/java/codes/lemon/netradio/controller/ModelAdapterImpl.java:291-294 | no station is highlighted; STATION_HIGHLIGHTED is published |
| Adapter.ModelAdapterImpl.RequestNextHighlightedStation | src/main/java/codes/lemon/netradio/controller/ModelAdapterImpl.java:257-260 | only NEXT_HIGHLIGHTED_STATION_REQUESTED is published |
| Adapter.ModelAdapterImpl.RequestPreviousHighlightedStation | src/main/java/codes/lemon/netradio/controller/ModelAdapterImpl.java:267-270 | only PREVIOUS_HIGHLIGHTED_STATION_REQUESTED is published |
| Adapter.ModelAdapterImpl.Shutdown | src/main/java/codes/lemon/netradio/controller/ModelAdapterImpl.java:314-317 | playback stops when a station is current, one CSV entry per stored station, and SHUTDOWN is published; subscribers, search and highlighted station stay |
| Rows.NewStationData | src/main/java/codes/lemon/netradio/controller/StationData.java:32-41 | the displayed fields are the arguments, the check box starts at `favourite`, and the id text is signed as the id |
| Rows.GetIdAsInt | src/main/java/codes/lemon/netradio/controller/StationData.java:47-49 | a successful parse is a Java `int`; malformed text fails with IllegalArgument |
| Rows.IdRoundTrip | src/main/java/codes/lemon/netradio/controller/StationData.java:47-49 | `getIdAsInt` returns exactly the id given to the constructor |
| Rows.ToRow | src/main/java/codes/lemon/netradio/controller/StationExplorerController.java:110-111 | a station's row copies its name, URI, genre, play count, favourite flag and bitrate |
| Rows.ToRowKeepsId | src/main/java/codes/lemon/netradio/controller/StationExplorerController.java:110-111 | a row's id reads back as its station's id, so distinct stations give distinct row ids |
| FavouriteList.Favourites | src/main/java/codes/lemon/netradio/controller/FavouriteStationListController.java:10-17 | never longer than the catalog |
| FavouriteList.FavouritesExactly | src/main/java/codes/lemon/netradio/controller/FavouriteStationListController.java:12-16 | a station is returned exactly when it is in the catalog and a favourite |
| FavouriteList.FavouritesKeepOrder | src/main/java/codes/lemon/netradio/controller/FavouriteStationListController.java:12-16 | the result is a subsequence of the catalog, so catalog order is kept |
| FavouriteList.FavouritePositions | src/main/java/codes/lemon/netradio/controller/FavouriteStationListController.java:12-16 | the increasing catalog positions the favourites come from |
| FavouriteList.GetStationsToDisplay | src/main/java/codes/lemon/netradio/controller/FavouriteStationListController.java:10-17 | the loop returns exactly `Favourites` of the catalog (also `getFavouriteStations` of the explorer) |
| Explorer.InsertPermutes | src/main/java/codes/lemon/netradio/controller/StationExplorerController.java:90-91 | inserting into the sorted list adds exactly that station |
| Explorer.InsertKeepsSorted | src/main/java/codes/lemon/netradio/controller/StationExplorerController.java:90-91 | inserting keeps play counts non-increasing |
| Explorer.Insert | src/main/java/codes/lemon/netradio/controller/StationExplorerController.java:91 | inserting adds exactly one element |
| Explorer.SortByPlays | src/main/java/codes/lemon/netradio/controller/StationExplorerController.java:91 | sorting keeps the length |
| Explorer.SortByPlaysCorrect | src/main/java/codes/lemon/netradio/controller/StationExplorerController.java:90-91 | sorting by play count, highest first, permutes the catalog |
| Explorer.MostPlayed | src/main/java/codes/lemon/netradio/controller/StationExplorerController.java:89-95 | `limit` with a negative bound fails with IllegalArgument, and only then |
| Explorer.MostPlayedIsTop | src/main/java/codes/lemon/netradio/controller/StationExplorerController.java:82-95 | min(n, size) stations, highest play count first, all from the catalog, the whole catalog when n is large enough, and no left-out station played more than a kept one |
| Explorer.PrefixIsTop | src/main/java/codes/lemon/netradio/controller/StationExplorerController.java:92 | a prefix of a sorted list holds its largest play counts |
| Explorer.RowsOf | src/main/java/codes/lemon/netradio/controller/StationExplorerController.java:106-114 | one row per station |
| Explorer.StationToStationData | src/main/java/codes/lemon/netradio/controller/StationExplorerController.java:106-114 | the loop yields one row per station, in station order, each the station's row |
| Explorer.GetRowSelected | src/main/java/codes/lemon/netradio/controller/StationExplorerController.java:212-219 | the row when exactly one cell is selected, -1 when none is; any result is -1 or a selected row |
| Explorer.NextRow | src/main/java/codes/lemon/netradio/controller/StationExplorerController.java:196-201 | the next row stays in the table; there is none exactly at the last row |
| Explorer.PreviousRow | src/main/java/codes/lemon/netradio/controller/StationExplorerController.java:168-178 | the previous row stays in the table, and is a real row in a non-empty table |
| Explorer.NextPreviousInverse | src/main/java/codes/lemon/netradio/controller/StationExplorerController.java:165-204 | stepping forward then back, or back then forward, returns to the row away from the ends |
| Explorer.NoSelectionStartsAtEnds | src/main/java/codes/lemon/netradio/controller/StationExplorerController.java:165-204 | with no selection, next starts at the first row and previous at the last; previous from the first row wraps to the last |
| Explorer.Refreshed | src/main/java/codes/lemon/netradio/controller/StationExplorerController.java:59-64 | the four tables: all stations, favourites, the ten most played and the cached search |
| Explorer.StepNext | src/main/java/codes/lemon/netradio/controller/StationExplorerController.java:193-204 | only the selection changes, to a single row of the table or not at all |
| Explorer.StepPrevious | src/main/java/codes/lemon/netradio/controller/StationExplorerController.java:165-185 | only the selection changes, to a single row of the table or not at all; it fails with NullPointer (the selected item is null) exactly on an empty table |
| Explorer.HighlightNextPreviousInverse | src/main/java/codes/lemon/netradio/controller/StationExplorerController.java:165-204 | away from the ends, highlighting next then previous (or previous then next) restores the table |
| Explorer.HighlightYieldsStationId | src/main/java/codes/lemon/netradio/controller/StationExplorerController.java:172-200 | the id handed to `setHighlightedStation` is the id of the station on the newly selected row |
| Explorer.HandleEventThroughFacade | src/main/java/codes/lemon/netradio/controller/StationExplorerController.java:142-157 | an event delivered to the explorer; when a highlight request yields a row's id, the façade's highlighted station becomes the stored station with that id (null when none) and STATION_HIGHLIGHTED is published; otherwise the highlighted station stays |
| Explorer.MostPlayedTableCapped | src/main/java/codes/lemon/netradio/controller/StationExplorerController.java:62 | the most-played table holds at most ten stations, and no more than the catalog |
| Explorer.StationExplorerController.constructor | src/main/java/codes/lemon/netradio/controller/StationExplorerController.java:43-54 | the tables are filled from the model and the all-stations tab is selected |
| Explorer.StationExplorerController.UpdateAllTableValues | src/main/java/codes/lemon/netradio/controller/StationExplorerController.java:59-64 | all four tables take `Refreshed`, the tab stays |
| Explorer.StationExplorerController.HighlightNextStation | src/main/java/codes/lemon/netradio/controller/StationExplorerController.java:193-204 | the shown table makes `StepNext`; the other tables are untouched |
| Explorer.StationExplorerController.HighlightPreviousStation | src/main/java/codes/lemon/netradio/controller/StationExplorerController.java:165-185 | the shown table makes `StepPrevious`; the other tables are untouched |
| Explorer.StationExplorerController.HandleEvent | src/main/java/codes/lemon/netradio/controller/StationExplorerController.java:142-157 | added, removed and edited refresh every table; the two highlight requests step the shown table; every other event changes nothing |
| Explorer.StationExplorerController.SearchStations | src/main/java/codes/lemon/netradio/controller/StationExplorerController.java:124-133 | the search table shows the results unselected and its tab is selected; the other tables stay |
| Explorer.Lift | src/main/java/codes/lemon/netradio/controller/StationExplorerController.java:172 | a highlight succeeds exactly when the row's id parses |

## Left out

- **File and CSV I/O.** `StationLoader` reads its rows with `FileReader` and OpenCSV, and writes them back. Loading takes the parsed rows as an `Option`, where `None` is a read failure. Storing returns the rows.
- **Threads and the GStreamer bus.** The EOS and error callbacks, and the bus's tag callback, are concurrent. A tag arrival is the sequential call `NetRadioPlayer.ReceiveTags`. No threads are modelled.
- **Floating-point volume.** `volumeLevel/100.0` and the 0.0 to 1.0 range of the back end are dropped. The back end keeps the integer percent with the same range check.
- **The back end's GStreamer objects.** `Gst.parseLaunch`, `PlayBin` and pipeline state changes are abstract. A pipeline is its URI, a playing flag and a volume.
- **`PropertyChangeSupport` internals.** Listener dispatch is an appended event log. The model assumes, as that class documents, that no event fires when the old and new values are equal.
- **JavaFX.** Widgets, tabs, dialogs and table views are left out. A table is its items and its selected cells. `updateAllTableValues` is taken to leave the tables with no selection.
- **Console logging.** `System.out` logging is left out.
- **Getters.** The plain getters of `RadioStation`, `OpenCSVEntry` and `StationData` are datatype fields. `getCurrentStation` and the façade's pass-through getters are field reads.
- **Stable sorting.** Explorer.MostPlayed: the sort is stable (equal play counts keep catalog order), because `Insert` places a station after the ones it ties with. No lemma states this stability.
- Stations.RadioStation.MarkPlayed: does not model `playCount++` (RadioStation.java:117) wrapping past 2147483647, because play counts are unbounded integers.
- Catalog.StationManager.AddStation: does not model `currentID++` (StationManager.java:75) wrapping past 2147483647, because ids are unbounded integers. Rows.ToRowKeepsId and Explorer.HighlightYieldsStationId therefore require the ids they read back to be Java `int`s.
- **The `assert` in `addStation`.** The `assert` at StationManager.java:73 runs only with assertions enabled. Catalog.StationManager.AddStation models the catalog with assertions off, where the `put` goes ahead.
- Adapter.ModelAdapterImpl.NotifySubscribers: assumes the subscribed handlers do not call back into the façade during the broadcast. The explorer does: on a highlight request it calls `setHighlightedStation` (StationExplorerController.java:172, :177, :200). In the model that call is the `highlight` result of Explorer.StationExplorerController.HandleEvent, and Explorer.HandleEventThroughFacade performs it after the handler returns. Adapter.ModelAdapterImpl.RequestNextHighlightedStation and Adapter.ModelAdapterImpl.RequestPreviousHighlightedStation therefore state only their own effect. The nested STATION_HIGHLIGHTED inside the outer broadcast, and the highlighted station it moves, are not part of their contracts.
- Explorer.StationExplorerController.constructor: does not model `model.subscribeToModelEvents(this)` in `initialize` (StationExplorerController.java:44). The explorer takes the station lists as parameters instead of holding the adapter. The subscription is Adapter.ModelAdapterImpl.Subscribe, and the events arrive through Explorer.StationExplorerController.HandleEvent.
- **`ModelAdapterImpl.getVolume`, `getAllStations`, `getStation`, `isPlaying`, `getObservableMetadata` and `getCurrentStation`.** These only forward to the player, whose members are modelled.
- **`Text.ToLower`.** It is ASCII-only. Java's `toLowerCase` also folds non-ASCII letters.
- Decimal.Parse: accepts ASCII digits only, while `Integer.parseInt` also accepts the other Unicode decimal digits, because the model has no Unicode character tables.

## Findings

| source | as written | input that shows it | evidently intended | confidence | as-written member | corrected member |
|---|---|---|---|---|---|---|
| src/main/java/codes/lemon/netradio/model/RadioStation.java:18 | the constructor asserts `id > 0` ("negative ID supplied") | `addStation` on a fresh catalog allocates id 0 (StationManager.java:11, :70); `getStationsForDevelopment` builds ids 0 to 4 | `id >= 0`, rejecting only negative ids | not executed | Catalog.AssertionAsWrittenRejectsFirstId | Stations.RadioStation.constructor |
| src/main/java/codes/lemon/netradio/model/StationManager.java:11 | the id counter starts at 0 on every launch, whatever ids the loaded stations have | a catalog loaded with a saved station of id 0, then `addStation`: the new station gets id 0 and replaces the saved one (the `assert` at :73 is off by default) | the counter starts one past the largest loaded id, so each new id is unused | not executed | Catalog.ReloadedFirstAddOverwrites | Catalog.StationManager.Seeded |
