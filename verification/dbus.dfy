/**
  The PropertiesChanged filter of dbus/dbus.go. A signal body is a sequence of
  dynamically typed values; the filter checks its shape step by step, gives up
  silently at the first mismatch, and otherwise tells the device the track
  fields it found followed by one commit. The device callbacks are modelled
  only as the ordered list of calls made on it.
 */
module Dbus {

  datatype Option<T> = None | Some(value: T)

  /** A D-Bus value as the filter sees it; a variant is its inner value. */
  datatype Value =
    | VString(str: string)
    | VMap(entries: map<string, Value>)
    | VOther

  /** One call made on the DeviceDbus interface. */
  datatype DeviceCall =
    | UpdateTitle(title: string)
    | UpdateArtist(artist: string)
    | UpdateAlbum(album: string)
    | CommitChanges

  /** Only signals from interfaces under this prefix are looked at. */
  const BluezPrefix: string := "org.bluez"

  predicate HasPrefix(s: string, prefix: string) {
    |prefix| <= |s| && s[..|prefix|] == prefix
  }

  /** The string under `key` in a track map, when there is one. */
  function StringField(track: map<string, Value>, key: string): Option<string> {
    if key in track && track[key].VString? then Some(track[key].str) else None
  }

  /** The calls made on the device for one signal body. The output is empty
      unless the signal carries a decodable track map, and then it is a
      subsequence of title, artist, album followed by exactly one commit. */
  function ProcessDbusUpdate(body: seq<Value>): (calls: seq<DeviceCall>)
    ensures calls != [] <==> TrackOf(body).Some?
    ensures CommitChanges in calls <==> TrackOf(body).Some?
    ensures WellOrdered(calls)
    ensures |calls| <= 4
  {
    if |body| < 3 then []
    else if !body[0].VString? || !HasPrefix(body[0].str, BluezPrefix) then []
    else if !body[1].VMap? then []
    else if "Track" in body[1].entries then
      var trackInfo := body[1].entries["Track"];
      if !trackInfo.VMap? then []
      else
        var title := StringField(trackInfo.entries, "Title");
        var artist := StringField(trackInfo.entries, "Artist");
        var album := StringField(trackInfo.entries, "Album");
        (if title.Some? then [UpdateTitle(title.value)] else [])
        + (if artist.Some? then [UpdateArtist(artist.value)] else [])
        + (if album.Some? then [UpdateAlbum(album.value)] else [])
        + [CommitChanges]
    else []
  }

  // ---------------------------------------------------------------------------
  // Reference description: a typed parse, then a fixed translation
  // ---------------------------------------------------------------------------

  /** The track map of a signal, when the signal passes every filter step. */
  function TrackOf(body: seq<Value>): (t: Option<map<string, Value>>)
    ensures t.Some? <==>
              && |body| >= 3
              && body[0].VString? && HasPrefix(body[0].str, BluezPrefix)
              && body[1].VMap? && "Track" in body[1].entries
              && body[1].entries["Track"].VMap?
    ensures t.Some? ==> body[1].entries["Track"] == VMap(t.value)
  {
    if |body| >= 3 && body[0].VString? && HasPrefix(body[0].str, BluezPrefix)
       && body[1].VMap? && "Track" in body[1].entries && body[1].entries["Track"].VMap?
    then Some(body[1].entries["Track"].entries)
    else None
  }

  /** The order the device is told things in: title, artist, album, commit. */
  function Rank(c: DeviceCall): nat {
    match c
    case UpdateTitle(_) => 0
    case UpdateArtist(_) => 1
    case UpdateAlbum(_) => 2
    case CommitChanges => 3
  }

  /** Empty, or a subsequence of title, artist, album followed by exactly one
      commit as the last call. */
  predicate WellOrdered(calls: seq<DeviceCall>) {
    && (calls != [] ==> calls[|calls| - 1] == CommitChanges)
    && (forall i, j :: 0 <= i < j < |calls| ==> Rank(calls[i]) < Rank(calls[j]))
  }

  /** Each field is forwarded exactly when the track map holds it as a string. */
  lemma FieldsForwarded(body: seq<Value>, s: string)
    ensures UpdateTitle(s) in ProcessDbusUpdate(body)
            <==> TrackOf(body).Some? && StringField(TrackOf(body).value, "Title") == Some(s)
    ensures UpdateArtist(s) in ProcessDbusUpdate(body)
            <==> TrackOf(body).Some? && StringField(TrackOf(body).value, "Artist") == Some(s)
    ensures UpdateAlbum(s) in ProcessDbusUpdate(body)
            <==> TrackOf(body).Some? && StringField(TrackOf(body).value, "Album") == Some(s)
  {
    var calls := ProcessDbusUpdate(body);
    if TrackOf(body).Some? {
      var track := TrackOf(body).value;
      var title := StringField(track, "Title");
      var artist := StringField(track, "Artist");
      var album := StringField(track, "Album");
      var ts := if title.Some? then [UpdateTitle(title.value)] else [];
      var ar := if artist.Some? then [UpdateArtist(artist.value)] else [];
      var al := if album.Some? then [UpdateAlbum(album.value)] else [];
      assert calls == ts + ar + al + [CommitChanges];
      assert UpdateTitle(s) in calls <==> UpdateTitle(s) in ts;
      assert UpdateArtist(s) in calls <==> UpdateArtist(s) in ar;
      assert UpdateAlbum(s) in calls <==> UpdateAlbum(s) in al;
    } else {
      assert calls == [];
    }
  }

  /** The individual rejections: a short body, a foreign or non-string
      interface, a property bag that is not a string-keyed map, a missing
      Track property and a Track that is not a map all yield no call. */
  lemma RejectedSignalsAreIgnored(body: seq<Value>)
    ensures |body| < 3 ==> ProcessDbusUpdate(body) == []
    ensures |body| >= 3 && !(body[0].VString? && HasPrefix(body[0].str, BluezPrefix))
            ==> ProcessDbusUpdate(body) == []
    ensures |body| >= 3 && !body[1].VMap? ==> ProcessDbusUpdate(body) == []
    ensures |body| >= 3 && body[1].VMap? && "Track" !in body[1].entries
            ==> ProcessDbusUpdate(body) == []
    ensures |body| >= 3 && body[1].VMap? && "Track" in body[1].entries
            && !body[1].entries["Track"].VMap?
            ==> ProcessDbusUpdate(body) == []
  {
  }

  /** A track with only an artist gives exactly the artist update and a commit. */
  lemma ArtistOnlyTrack(iface: string, artist: string, rest: seq<Value>)
    requires HasPrefix(iface, BluezPrefix)
    ensures ProcessDbusUpdate([VString(iface), VMap(map["Track" := VMap(map["Artist" := VString(artist)])])] + [VOther] + rest)
            == [UpdateArtist(artist), CommitChanges]
  {
  }

  /** Body elements from index 2 on never change the outcome. */
  lemma TrailingElementsIgnored(b1: seq<Value>, b2: seq<Value>)
    requires |b1| >= 3 && |b2| >= 3
    requires b1[..2] == b2[..2]
    ensures ProcessDbusUpdate(b1) == ProcessDbusUpdate(b2)
  {
    assert b1[0] == b1[..2][0] == b2[..2][0] == b2[0];
    assert b1[1] == b1[..2][1] == b2[..2][1] == b2[1];
  }
}
