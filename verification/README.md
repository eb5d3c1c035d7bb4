# ipod-gadget device state and D-Bus bridge, in Dafny

This project models the two pieces of logic of the ipod-gadget accessory
emulator that carry behaviour:

- the general-lingo device (`DevGeneral` in `cmd/ipod/general.go`): the IDPS
  identification session (start, token collection, end-of-session report),
  the play/pause toggle with its remote-event notifications gated by the
  subscription mask, the 4-byte big-endian track-position payload, and the
  per-lingo protocol-version and options queries;
- the PropertiesChanged filter (`ProcessDbusUpdate` in `dbus/dbus.go`), which
  checks a D-Bus signal body step by step and tells the device the title,
  artist and album it found, followed by one commit.

The device is an immutable record `DevGeneral(tokens, player, mask)` and each
operation is a pure function returning the new record together with what the
Go code hands to the outside world: the report (as a list of entries, not
formatted text), or the ordered `RemoteEventNotification(eventNum, data)`
values given to the transport. The identifiers the Go code imports from the
ipod libraries are parameters, collected in `General.Consts`: the lingo IDs,
the two remote-event numbers (below 32, since the code shifts a uint32 by
them), the two play-status codes and the capability vocabulary `AccCaps`
(a sequence of 64-bit bit values). The D-Bus body is a sequence of
`Value = VString | VMap | VOther`, a variant standing for its inner value,
and the filter returns the list of calls made on `DeviceDbus`.

`EndIDPS` only reads the tokens (`cmd/ipod/general.go:120-156`), so
`General.EndIDPS` returns the device unchanged and the tokens stay until the
next `StartIDPS`. The toggle sends every state other than Paused to Paused
(`cmd/ipod/general.go:190-194`), so the model keeps the player states other
than Playing and Paused as `OtherState`.

Files: `binary.dfy` (module `BigEndian`: integer widths and the 4-byte
encoding), `general.dfy` (module `General`), `dbus.dfy` (module `Dbus`).

## Model

| member | source | states |
|---|---|---|
| BigEndian.PutUint32 | cmd/ipod/general.go:205-209 | the position payload is exactly 4 bytes whose big-endian value is the position |
| BigEndian.DecodeEncode | cmd/ipod/general.go:205-209 | decoding the 4-byte payload yields the position back |
| BigEndian.EncodeDecode | cmd/ipod/general.go:205-209 | every 4-byte sequence is the encoding of its decoded value, so the encoding is a bijection |
| BigEndian.EncodingInjective | cmd/ipod/general.go:205-209 | two positions have the same payload if and only if they are equal |
| BigEndian.EncodeExample | cmd/ipod/general.go:202-210 | position 12345 is sent as 00 00 30 39 |
| General.LingoProtocolVersion | cmd/ipod/general.go:59-72 | major version is always 1; (1,9) for general, (1,5) display-remote, (1,12) ext-remote, (1,2) digital-audio, (1,1) for any other lingo |
| General.LingoOptions | cmd/ipod/general.go:74-82 | the options are nonzero exactly for the general lingo, and then 0x000000063DEF73FF |
| General.TrackPositionMs | cmd/ipod/general.go:228-230 | the current track position in milliseconds; `TogglePlayPause` states that the position notification's payload is its 4-byte encoding |
| General.PlayStatusType | cmd/ipod/general.go:216-222 | always the playing or the paused code, and (when the two codes differ) the playing code exactly for Playing; `TogglePlayPause` states that the status notification's byte is this code of the new state |
| General.SetRemoteEventNotificationMask | cmd/ipod/general.go:224-226 | the mask is replaced by the given one; tokens and player are unchanged |
| General.StartIDPS | cmd/ipod/general.go:111-113 | the token list is empty afterwards whatever it held; player and mask unchanged |
| General.SetToken | cmd/ipod/general.go:115-118 | always succeeds; the token is appended at the end, earlier tokens, player and mask are unchanged |
| General.SetTokensAppends | cmd/ipod/general.go:115-118 | a run of SetToken calls appends exactly those tokens in order, duplicates kept |
| General.SessionHoldsReceivedTokens | cmd/ipod/general.go:111-118 | after StartIDPS and any tokens, the session holds exactly the tokens received, in order |
| General.CapabilityEntries | cmd/ipod/general.go:130-135 | a capability appears exactly when it is in the vocabulary and `bitmask & c != 0`; never more entries than vocabulary bits |
| General.CapabilityEntriesAppend | cmd/ipod/general.go:131-135 | the capability entries keep vocabulary order |
| General.CapabilityLines | cmd/ipod/general.go:131-135 | the loop over the vocabulary produces the capability entries of the token |
| General.Report | cmd/ipod/general.go:120-156 | the report is empty exactly when there are no tokens, and has at least one entry per token |
| General.ReportAppend | cmd/ipod/general.go:123-154 | each token contributes its own block of entries after those of the tokens before it |
| General.ReportNamesEveryToken | cmd/ipod/general.go:123-125 | the report's token entries name exactly the types of the tokens, one each, in list order |
| General.ReportCapabilities | cmd/ipod/general.go:127-135 | a capability is reported exactly when it is in the vocabulary and set in some caps token of the session |
| General.ReportInfos | cmd/ipod/general.go:136-138 | an info entry is reported exactly for the info tokens of the session |
| General.EndIDPS | cmd/ipod/general.go:120-156 | the walk over the tokens builds the report; the device, tokens included, is left as it was |
| General.Toggle | cmd/ipod/general.go:190-194 | the new state is Playing exactly when the old one was Paused, and is always Playing or Paused |
| General.TogglePlayPause | cmd/ipod/general.go:189-230 | state flips as above, nothing else changes; one notification per subscribed event, each subscribed in the mask; status first with the new state's play-status byte, position last with 4 bytes decoding to the position |
| General.ToggleTwice | cmd/ipod/general.go:189-211 | from Playing or Paused two toggles restore the device; with both events subscribed each toggle sends status then position |
| General.ToggleTwiceFromOtherState | cmd/ipod/general.go:190-194 | from any other player state two toggles end in Playing |
| General.MaskGovernsNextToggle | cmd/ipod/general.go:196-226 | after setting a mask, the next toggle is silent exactly when neither event bit is set in it; mask 0 silences it |
| Dbus.ProcessDbusUpdate | dbus/dbus.go:36-75 | calls are made exactly when the body carries a decodable Track map; then they are a subsequence of title, artist, album ending in exactly one commit |
| Dbus.TrackOf | dbus/dbus.go:37-55 | a track map is found exactly when the body has at least 3 elements, a string interface under `org.bluez`, a map of properties and a map under Track, and it is the map under Track |
| Dbus.FieldsForwarded | dbus/dbus.go:57-71 | each of Title, Artist, Album is forwarded exactly when present in the track map as a string |
| Dbus.RejectedSignalsAreIgnored | dbus/dbus.go:37-55 | short bodies, foreign or non-string interfaces, non-map properties, a missing Track and a non-map Track all give no call, not even a commit |
| Dbus.ArtistOnlyTrack | dbus/dbus.go:51-74 | a track with only an artist gives the artist update and a commit |
| Dbus.TrailingElementsIgnored | dbus/dbus.go:36-75 | body elements from index 2 on never change the calls |

## Left out

- `SubscribeDbus` (system-bus connection, match rule, the 50-slot channel, `log.Fatalf`): I/O and process plumbing.
- `AccAuthCert`: it only parses a PKCS#7 container with a foreign library and logs the common name; it touches no state.
- The text of the IDPS report (`%T`, `spew.Sdump`, `log.Print`, the "Tokens:" header): entries are modelled abstractly; a token entry carries the token's type as a `TokenKind`, and an info entry carries the info-type code and the raw value instead of the type's name and a dump.
- Payloads of the token kinds the report does not inspect, and tokens of types outside the nine the switch names (they add only a token entry, as the closed `Token` type's other kinds do).
- The wire encoding done by `ipod.Respond` and the serialisation of `RemoteEventNotification`; only the (event number, payload) pairs are modelled, and the request/transport parameters with them.
- The concrete values of the library constants (lingo IDs, remote-event numbers, play-status codes, `AccCaps`, `AccInfoType.String`): they are parameters.
- The player states of the extended-remote library other than Playing and Paused are kept only as an opaque code, since the device names no other.
- The `EndIDPS` status argument, which the code ignores.
- `UIMode`/`SetUIMode` and the `uimode` field, `PrefSettingID`, `SetPrefSettingID`, `SetEventNotificationMask` (a no-op), `EventNotificationMask`, `SupportedEventNotificationMask`, `CancelCommand`, `Name`, `SoftwareVersion`, `SerialNum`, `MaxPayload`, and the plain getters `PlayingTrack*`, `TrackInfo*`, `PlayerState`: constants or field reads with no behaviour.
- The effect of `UpdateTitle`, `UpdateArtist`, `UpdateAlbum` and `CommitChanges` on the player: their implementations are not part of this model, so only which calls are made, and in what order, is modelled.
- Concurrency between the bus consumer and command handling.
