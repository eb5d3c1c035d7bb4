/**
  The accessory-side device state of cmd/ipod/general.go: the identification
  (IDPS) token session with its end-of-session report, the play/pause toggle
  with its mask-gated remote-event notifications, and the per-lingo queries.

  The device is an immutable record and every operation is a pure function
  returning the new record together with whatever the Go code hands to the
  outside world (a report, or the ordered notifications given to the
  transport). Identifiers that the Go code takes from the ipod libraries
  (lingo IDs, remote-event numbers, play-status codes, the capability
  vocabulary) are fields of a `Consts` parameter.
 */
module General {
  import opened BigEndian

  // ---------------------------------------------------------------------------
  // Library constants
  // ---------------------------------------------------------------------------

  /** A remote-event number; the Go code shifts a uint32 by it, so it is below 32. */
  type EventNum = x: int | 0 <= x < 32

  /** The values the device takes from the ipod libraries. */
  datatype Consts = Consts(
    lingoGeneral: uint8,
    lingoDisplayRemote: uint8,
    lingoExtRemote: uint8,
    lingoDigitalAudio: uint8,
    remoteEventPlayStatus: EventNum,
    remoteEventTrackPositionMs: EventNum,
    playStatusPlaying: uint8,
    playStatusPaused: uint8,
    /** the capability vocabulary, each entry one named bit of a caps token */
    accCaps: seq<bv64>)

  /** The lingo IDs are distinct constants (Go refuses duplicate switch cases). */
  predicate DistinctLingos(k: Consts) {
    && k.lingoGeneral != k.lingoDisplayRemote
    && k.lingoGeneral != k.lingoExtRemote
    && k.lingoGeneral != k.lingoDigitalAudio
    && k.lingoDisplayRemote != k.lingoExtRemote
    && k.lingoDisplayRemote != k.lingoDigitalAudio
    && k.lingoExtRemote != k.lingoDigitalAudio
  }

  // ---------------------------------------------------------------------------
  // State
  // ---------------------------------------------------------------------------

  /** The extended-remote player state. Only Playing and Paused are named by
      the device; every other state of the library's enumeration is kept by
      its code. */
  datatype PlayerState = Playing | Paused | OtherState(code: uint8)

  datatype DevPlayer = DevPlayer(
    title: string,
    artist: string,
    album: string,
    position: uint32,
    state: PlayerState)

  /** One identification token; the payload of kinds the report does not
      inspect is left out. */
  datatype Token =
    | Identify
    | AccCaps(bitmask: bv64)
    | AccInfo(infoType: uint8, value: seq<uint8>)
    | IPodPreference
    | EAProtocol
    | BundleSeedIDPref
    | ScreenInfo
    | EAProtocolMetadata
    | MicrophoneCaps

  /** The device: the tokens of the current IDPS session, the player and the
      remote-event subscription mask. */
  datatype DevGeneral = DevGeneral(tokens: seq<Token>, player: DevPlayer, mask: bv32)

  /** The `error` SetToken returns. */
  datatype Outcome = Pass | Fail(message: string)

  // ---------------------------------------------------------------------------
  // Queries
  // ---------------------------------------------------------------------------

  /** Protocol version (major, minor) reported for a lingo, with (1, 1) for
      every lingo the device does not know. */
  function LingoProtocolVersion(k: Consts, lingo: uint8): (v: (uint8, uint8))
    ensures v.0 == 1
    ensures lingo !in {k.lingoGeneral, k.lingoDisplayRemote, k.lingoExtRemote, k.lingoDigitalAudio}
            ==> v == (1, 1)
    ensures lingo == k.lingoGeneral ==> v == (1, 9)
    ensures DistinctLingos(k) && lingo == k.lingoDisplayRemote ==> v == (1, 5)
    ensures DistinctLingos(k) && lingo == k.lingoExtRemote ==> v == (1, 12)
    ensures DistinctLingos(k) && lingo == k.lingoDigitalAudio ==> v == (1, 2)
  {
    if lingo == k.lingoGeneral then (1, 9)
    else if lingo == k.lingoDisplayRemote then (1, 5)
    else if lingo == k.lingoExtRemote then (1, 12)
    else if lingo == k.lingoDigitalAudio then (1, 2)
    else (1, 1)
  }

  /** Options bitmask of a lingo: only the general lingo has any. */
  function LingoOptions(k: Consts, lingo: uint8): (opts: bv64)
    ensures opts != 0 <==> lingo == k.lingoGeneral
    ensures opts != 0 ==> opts == 0x0000_0006_3DEF_73FF
  {
    if lingo == k.lingoGeneral then 0x0000_0006_3DEF_73FF else 0
  }

  /** The current track position in milliseconds. */
  function TrackPositionMs(d: DevGeneral): (ms: uint32)
    ensures ms == d.player.position
  {
    d.player.position
  }

  /** The display-remote play status code of the player's current state:
      the playing code for Playing, the paused code for every other state. */
  function PlayStatusType(k: Consts, d: DevGeneral): (code: uint8)
    ensures code == k.playStatusPlaying || code == k.playStatusPaused
    ensures k.playStatusPlaying != k.playStatusPaused ==>
              (code == k.playStatusPlaying <==> d.player.state == Playing)
  {
    if d.player.state == Playing then k.playStatusPlaying else k.playStatusPaused
  }

  /** Replaces the remote-event subscription mask wholesale. */
  function SetRemoteEventNotificationMask(d: DevGeneral, mask: bv32): (d': DevGeneral)
    ensures d'.mask == mask
    ensures d'.tokens == d.tokens && d'.player == d.player
  {
    d.(mask := mask)
  }

  // ---------------------------------------------------------------------------
  // IDPS token session
  // ---------------------------------------------------------------------------

  /** Opens a session: the token list is emptied. */
  function StartIDPS(d: DevGeneral): (d': DevGeneral)
    ensures d'.tokens == []
    ensures d'.player == d.player && d'.mask == d.mask
  {
    d.(tokens := [])
  }

  /** Records one token; it is never rejected. */
  function SetToken(d: DevGeneral, token: Token): (r: (DevGeneral, Outcome))
    ensures r.1 == Pass
    ensures |r.0.tokens| == |d.tokens| + 1 && r.0.tokens[|d.tokens|] == token
    ensures r.0.tokens[..|d.tokens|] == d.tokens
    ensures r.0.player == d.player && r.0.mask == d.mask
  {
    (d.(tokens := d.tokens + [token]), Pass)
  }

  /** The device after SetToken has been called with each of `ts` in turn. */
  function SetTokens(d: DevGeneral, ts: seq<Token>): DevGeneral
    decreases |ts|
  {
    if ts == [] then d else SetTokens(SetToken(d, ts[0]).0, ts[1..])
  }

  /** Setting tokens one by one appends exactly them, in order, duplicates
      included, and touches nothing else. */
  lemma {:induction false} SetTokensAppends(d: DevGeneral, ts: seq<Token>)
    ensures SetTokens(d, ts).tokens == d.tokens + ts
    ensures SetTokens(d, ts).player == d.player && SetTokens(d, ts).mask == d.mask
    decreases |ts|
  {
    if ts != [] {
      var d1 := SetToken(d, ts[0]).0;
      SetTokensAppends(d1, ts[1..]);
      assert d1.tokens + ts[1..] == d.tokens + ts by {
        assert ts == [ts[0]] + ts[1..];
      }
    }
  }

  /** A session started with StartIDPS holds exactly the tokens received
      since, whatever the device held before. */
  lemma SessionHoldsReceivedTokens(d: DevGeneral, ts: seq<Token>)
    ensures SetTokens(StartIDPS(d), ts).tokens == ts
    ensures SetTokens(StartIDPS(d), ts).player == d.player
    ensures SetTokens(StartIDPS(d), ts).mask == d.mask
  {
    SetTokensAppends(StartIDPS(d), ts);
  }

  // ---------------------------------------------------------------------------
  // IDPS report
  // ---------------------------------------------------------------------------

  /** The type of a token, which is all the report prints of most tokens. */
  datatype TokenKind =
    | IdentifyToken
    | AccCapsToken
    | AccInfoToken
    | IPodPreferenceToken
    | EAProtocolToken
    | BundleSeedIDPrefToken
    | ScreenInfoToken
    | EAProtocolMetadataToken
    | MicrophoneCapsToken

  function Kind(t: Token): TokenKind {
    match t
    case Identify => IdentifyToken
    case AccCaps(_) => AccCapsToken
    case AccInfo(_, _) => AccInfoToken
    case IPodPreference => IPodPreferenceToken
    case EAProtocol => EAProtocolToken
    case BundleSeedIDPref => BundleSeedIDPrefToken
    case ScreenInfo => ScreenInfoToken
    case EAProtocolMetadata => EAProtocolMetadataToken
    case MicrophoneCaps => MicrophoneCapsToken
  }

  /** One line of the end-of-session report: the type of a token, a
      capability bit found in a caps token, or an info token's type and value. */
  datatype ReportEntry =
    | TokenEntry(kind: TokenKind)
    | Capability(bit: bv64)
    | Info(infoType: uint8, value: seq<uint8>)

  /** Vocabulary bit `c` is present in a caps token's bitmask. */
  predicate HasCapability(bitmask: bv64, c: bv64) {
    bitmask & c != 0
  }

  /** The capability entries of a caps token: the vocabulary bits `c` with
      `bitmask & c != 0`, in vocabulary order. */
  function CapabilityEntries(bitmask: bv64, caps: seq<bv64>): (es: seq<ReportEntry>)
    ensures |es| <= |caps|
    ensures forall i :: 0 <= i < |es| ==> es[i].Capability?
    ensures forall c :: Capability(c) in es <==> c in caps && HasCapability(bitmask, c)
    decreases |caps|
  {
    if caps == [] then []
    else if HasCapability(bitmask, caps[0]) then [Capability(caps[0])] + CapabilityEntries(bitmask, caps[1..])
    else CapabilityEntries(bitmask, caps[1..])
  }

  /** Filtering preserves vocabulary order: the entries for a vocabulary split
      in two are those of the first part followed by those of the second. */
  lemma {:induction false} CapabilityEntriesAppend(bitmask: bv64, a: seq<bv64>, b: seq<bv64>)
    ensures CapabilityEntries(bitmask, a + b)
            == CapabilityEntries(bitmask, a) + CapabilityEntries(bitmask, b)
    decreases |a|
  {
    if a == [] {
      assert a + b == b;
    } else {
      assert (a + b)[0] == a[0] && (a + b)[1..] == a[1..] + b;
      CapabilityEntriesAppend(bitmask, a[1..], b);
    }
  }

  /** The report lines of one token. */
  function TokenReport(t: Token, caps: seq<bv64>): seq<ReportEntry> {
    [TokenEntry(Kind(t))] +
    match t
    case AccCaps(bitmask) => CapabilityEntries(bitmask, caps)
    case AccInfo(infoType, value) => [Info(infoType, value)]
    case _ => []
  }

  /** The whole report: each token's lines, in token order. */
  function Report(ts: seq<Token>, caps: seq<bv64>): (es: seq<ReportEntry>)
    ensures |es| >= |ts|
    ensures es == [] <==> ts == []
    decreases |ts|
  {
    if ts == [] then [] else TokenReport(ts[0], caps) + Report(ts[1..], caps)
  }

  /** The report of one more token is the old report followed by its lines. */
  lemma {:induction false} ReportAppend(ts: seq<Token>, t: Token, caps: seq<bv64>)
    ensures Report(ts + [t], caps) == Report(ts, caps) + TokenReport(t, caps)
    decreases |ts|
  {
    if ts == [] {
      assert Report([t], caps) == TokenReport(t, caps) + Report([], caps);
    } else {
      assert (ts + [t])[1..] == ts[1..] + [t];
      ReportAppend(ts[1..], t, caps);
    }
  }

  /** The token types named by the token-type lines of a report, in order. */
  function NamedKinds(es: seq<ReportEntry>): seq<TokenKind>
    decreases |es|
  {
    if es == [] then []
    else if es[0].TokenEntry? then [es[0].kind] + NamedKinds(es[1..])
    else NamedKinds(es[1..])
  }

  lemma {:induction false} NamedKindsAppend(a: seq<ReportEntry>, b: seq<ReportEntry>)
    ensures NamedKinds(a + b) == NamedKinds(a) + NamedKinds(b)
    decreases |a|
  {
    if a == [] {
      assert a + b == b;
    } else {
      assert (a + b)[0] == a[0] && (a + b)[1..] == a[1..] + b;
      NamedKindsAppend(a[1..], b);
    }
  }

  lemma {:induction false} NamedKindsOfCapabilities(bitmask: bv64, caps: seq<bv64>)
    ensures NamedKinds(CapabilityEntries(bitmask, caps)) == []
    decreases |caps|
  {
    if caps != [] {
      NamedKindsOfCapabilities(bitmask, caps[1..]);
      if HasCapability(bitmask, caps[0]) {
        NamedKindsAppend([Capability(caps[0])], CapabilityEntries(bitmask, caps[1..]));
      }
    }
  }

  /** The report has exactly one token-type line per token, naming that
      token's type, in token order. */
  lemma {:induction false} ReportNamesEveryToken(ts: seq<Token>, caps: seq<bv64>)
    ensures NamedKinds(Report(ts, caps)) == seq(|ts|, i requires 0 <= i < |ts| => Kind(ts[i]))
    decreases |ts|
  {
    if ts != [] {
      var t := ts[0];
      var details := match t
        case AccCaps(bitmask) => CapabilityEntries(bitmask, caps)
        case AccInfo(infoType, value) => [Info(infoType, value)]
        case _ => [];
      assert TokenReport(t, caps) == [TokenEntry(Kind(t))] + details;
      assert NamedKinds(details) == [] by {
        if t.AccCaps? {
          NamedKindsOfCapabilities(t.bitmask, caps);
        }
      }
      NamedKindsAppend([TokenEntry(Kind(t))], details);
      NamedKindsAppend(TokenReport(t, caps), Report(ts[1..], caps));
      ReportNamesEveryToken(ts[1..], caps);
      var tail := seq(|ts| - 1, i requires 0 <= i < |ts| - 1 => Kind(ts[1..][i]));
      assert [Kind(t)] + tail == seq(|ts|, i requires 0 <= i < |ts| => Kind(ts[i]));
    }
  }

  /** A capability appears in the report exactly when it is in the vocabulary
      and set in the bitmask of some caps token of the session. */
  lemma {:induction false} ReportCapabilities(ts: seq<Token>, caps: seq<bv64>, c: bv64)
    ensures Capability(c) in Report(ts, caps)
            <==> c in caps && exists i :: 0 <= i < |ts| && ts[i].AccCaps? && HasCapability(ts[i].bitmask, c)
    decreases |ts|
  {
    if ts != [] {
      ReportCapabilities(ts[1..], caps, c);
      var rest := Report(ts[1..], caps);
      assert Report(ts, caps) == TokenReport(ts[0], caps) + rest;
      if c in caps && exists i :: 0 <= i < |ts| && ts[i].AccCaps? && HasCapability(ts[i].bitmask, c) {
        var i :| 0 <= i < |ts| && ts[i].AccCaps? && HasCapability(ts[i].bitmask, c);
        if i == 0 {
          assert Capability(c) in TokenReport(ts[0], caps);
        } else {
          assert ts[1..][i - 1] == ts[i];
        }
      }
      if Capability(c) in rest {
        var i :| 0 <= i < |ts[1..]| && ts[1..][i].AccCaps? && HasCapability(ts[1..][i].bitmask, c);
        assert ts[i + 1] == ts[1..][i];
      }
    }
  }

  /** An info line appears in the report exactly for the info tokens of the
      session. */
  lemma {:induction false} ReportInfos(ts: seq<Token>, caps: seq<bv64>, infoType: uint8, value: seq<uint8>)
    ensures Info(infoType, value) in Report(ts, caps) <==> AccInfo(infoType, value) in ts
    decreases |ts|
  {
    if ts != [] {
      ReportInfos(ts[1..], caps, infoType, value);
      assert Report(ts, caps) == TokenReport(ts[0], caps) + Report(ts[1..], caps);
      assert ts == [ts[0]] + ts[1..];
    }
  }

  /** Tests every vocabulary bit against a caps token's bitmask, keeping the
      present ones in vocabulary order. */
  method CapabilityLines(bitmask: bv64, caps: seq<bv64>) returns (es: seq<ReportEntry>)
    ensures es == CapabilityEntries(bitmask, caps)
  {
    es := [];
    var j := 0;
    while j < |caps|
      invariant 0 <= j <= |caps|
      invariant es == CapabilityEntries(bitmask, caps[..j])
    {
      var c := caps[j];
      CapabilityEntriesAppend(bitmask, caps[..j], [c]);
      assert caps[..j + 1] == caps[..j] + [c];
      if HasCapability(bitmask, c) {
        es := es + [Capability(c)];
      }
      j := j + 1;
    }
    assert caps[..j] == caps;
  }

  /** Closes the session: walks the tokens and builds the report. The device
      is returned as it was; in particular the tokens are not cleared. */
  method EndIDPS(k: Consts, d: DevGeneral, status: uint8) returns (d': DevGeneral, report: seq<ReportEntry>)
    ensures d' == d
    ensures report == Report(d.tokens, k.accCaps)
  {
    report := [];
    var i := 0;
    while i < |d.tokens|
      invariant 0 <= i <= |d.tokens|
      invariant report == Report(d.tokens[..i], k.accCaps)
    {
      var token := d.tokens[i];
      var lines := [TokenEntry(Kind(token))];
      match token {
        case AccCaps(bitmask) =>
          var caps := CapabilityLines(bitmask, k.accCaps);
          lines := lines + caps;
        case AccInfo(infoType, value) =>
          lines := lines + [Info(infoType, value)];
        case _ =>
      }
      assert lines == TokenReport(token, k.accCaps);
      ReportAppend(d.tokens[..i], token, k.accCaps);
      assert d.tokens[..i + 1] == d.tokens[..i] + [token];
      report := report + lines;
      i := i + 1;
    }
    assert d.tokens[..i] == d.tokens;
    d' := d;
  }

  // ---------------------------------------------------------------------------
  // Play/pause toggle and remote-event notifications
  // ---------------------------------------------------------------------------

  /** One display-remote RemoteEventNotification handed to the transport. */
  datatype Notification = Notification(eventNum: EventNum, eventData: seq<uint8>)

  /** The device after the toggle and the notifications it sent, in order. */
  datatype Toggled = Toggled(dev: DevGeneral, sent: seq<Notification>)

  /** Bit `e` of the subscription mask, tested as `mask & (1 << e) != 0`. */
  predicate Subscribed(mask: bv32, e: EventNum) {
    mask & (1 << e) != 0
  }

  /** Paused becomes Playing; every other state becomes Paused. */
  function Toggle(s: PlayerState): (s': PlayerState)
    ensures s' == Playing <==> s == Paused
    ensures s' == Playing || s' == Paused
  {
    if s == Paused then Playing else Paused
  }

  /** The play-status notification: one byte, the status of the new state. */
  function StatusNotification(k: Consts, d: DevGeneral): Notification {
    Notification(k.remoteEventPlayStatus, [PlayStatusType(k, d)])
  }

  /** The track-position notification: the position, 4 bytes big-endian. */
  function PositionNotification(k: Consts, d: DevGeneral): Notification {
    Notification(k.remoteEventTrackPositionMs, PutUint32(TrackPositionMs(d)))
  }

  /** Flips the play state, then notifies the subscribed events: play status
      first, track position second. */
  function TogglePlayPause(k: Consts, d: DevGeneral): (r: Toggled)
    ensures r.dev.player.state == Playing <==> d.player.state == Paused
    ensures r.dev.player.state == Playing || r.dev.player.state == Paused
    ensures r.dev.tokens == d.tokens && r.dev.mask == d.mask
    ensures r.dev.player.title == d.player.title && r.dev.player.artist == d.player.artist
    ensures r.dev.player.album == d.player.album && r.dev.player.position == d.player.position
    ensures |r.sent| == (if Subscribed(d.mask, k.remoteEventPlayStatus) then 1 else 0)
                        + (if Subscribed(d.mask, k.remoteEventTrackPositionMs) then 1 else 0)
    ensures forall i :: 0 <= i < |r.sent| ==> Subscribed(d.mask, r.sent[i].eventNum)
    ensures Subscribed(d.mask, k.remoteEventPlayStatus) ==>
              r.sent[0].eventNum == k.remoteEventPlayStatus
              && r.sent[0].eventData == [PlayStatusType(k, r.dev)]
              && r.sent[0].eventData
                 == [if r.dev.player.state == Playing then k.playStatusPlaying else k.playStatusPaused]
    ensures Subscribed(d.mask, k.remoteEventTrackPositionMs) ==>
              r.sent[|r.sent| - 1].eventNum == k.remoteEventTrackPositionMs
              && |r.sent[|r.sent| - 1].eventData| == 4
              && r.sent[|r.sent| - 1].eventData == PutUint32(TrackPositionMs(r.dev))
              && Uint32(r.sent[|r.sent| - 1].eventData) == d.player.position
  {
    var d' := d.(player := d.player.(state := Toggle(d.player.state)));
    var status := if Subscribed(d'.mask, k.remoteEventPlayStatus) then [StatusNotification(k, d')] else [];
    var position := if Subscribed(d'.mask, k.remoteEventTrackPositionMs) then [PositionNotification(k, d')] else [];
    DecodeEncode(d.player.position);
    Toggled(d', status + position)
  }

  /** Toggling twice from Playing or Paused restores the device, and with
      both events subscribed each toggle sends status then position. */
  lemma ToggleTwice(k: Consts, d: DevGeneral)
    requires d.player.state == Playing || d.player.state == Paused
    ensures TogglePlayPause(k, TogglePlayPause(k, d).dev).dev == d
    ensures Subscribed(d.mask, k.remoteEventPlayStatus) && Subscribed(d.mask, k.remoteEventTrackPositionMs) ==>
              var first := TogglePlayPause(k, d);
              var second := TogglePlayPause(k, first.dev);
              && first.sent == [StatusNotification(k, first.dev), PositionNotification(k, d)]
              && second.sent == [StatusNotification(k, d), PositionNotification(k, d)]
  {
  }

  /** From any other state two toggles end in Playing, not where they began. */
  lemma ToggleTwiceFromOtherState(k: Consts, d: DevGeneral, code: uint8)
    requires d.player.state == OtherState(code)
    ensures TogglePlayPause(k, TogglePlayPause(k, d).dev).dev.player.state == Playing
  {
  }

  /** Once the mask is set to 0, whatever it was, toggling sends nothing; and
      a new mask governs the very next toggle. */
  lemma MaskGovernsNextToggle(k: Consts, d: DevGeneral, mask: bv32)
    ensures TogglePlayPause(k, SetRemoteEventNotificationMask(d, mask)).sent == [] <==>
              !Subscribed(mask, k.remoteEventPlayStatus) && !Subscribed(mask, k.remoteEventTrackPositionMs)
    ensures mask == 0 ==> TogglePlayPause(k, SetRemoteEventNotificationMask(d, mask)).sent == []
  {
  }
}
