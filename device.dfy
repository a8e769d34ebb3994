/** The device state the current dashboard polls every frame (main.cpp): the buffers the driver
    getters fill, the power-off cascade that clears them, the strength order of the scanned
    networks, and the network panel built from them. */
module Device {
  import Signal

  type byte = b: int | 0 <= b < 256

  const VISIBLE_NETWORKS: nat := 20

  predicate AllZero(bytes: seq<byte>) {
    forall i :: 0 <= i < |bytes| ==> bytes[i] == 0
  }

  function Zeros(n: nat): (r: seq<byte>)
    ensures |r| == n && AllZero(r)
  {
    seq(n, _ => 0)
  }

  /** The C string held in a byte buffer: its bytes before the first NUL. */
  function CString(bytes: seq<byte>): (s: seq<byte>)
    ensures |s| <= |bytes| && s == bytes[..|s|]
    ensures forall i :: 0 <= i < |s| ==> s[i] != 0
    ensures |s| < |bytes| ==> bytes[|s|] == 0
  {
    if bytes == [] || bytes[0] == 0 then [] else [bytes[0]] + CString(bytes[1..])
  }

  /** `strcmp(a, b) == 0`: the two buffers hold the same C string. */
  predicate SameCString(a: seq<byte>, b: seq<byte>) {
    CString(a) == CString(b)
  }

  /** One entry of the driver's scan list (`ioctl_network_info`). */
  datatype NetworkInfo = NetworkInfo(ssid: seq<byte>, rssi: int, rsnProtos: nat)

  /** `platform_info_t`: the device and driver description strings. */
  datatype PlatformInfo = PlatformInfo(deviceInfo: seq<byte>, driverInfo: seq<byte>)

  /** `station_info_t`; `opMode` is the raw value of the driver's phy-mode enumeration. */
  datatype StationInfo = StationInfo(rssi: int, channel: int, opMode: nat)

  /** The flags the seven getters return: whether each value was available this frame. */
  datatype Availability = Availability(
    ssid: bool, bssid: bool, state80211: bool, power: bool,
    platform: bool, networkList: bool, station: bool)

  /** Everything one frame's polling leaves behind. `networks` is the whole list buffer, of
      which the first `count` entries are the scan results. */
  datatype Snapshot = Snapshot(
    ssid: seq<byte>, bssid: seq<byte>, powerOn: bool, state80211: nat,
    platform: PlatformInfo, networks: seq<NetworkInfo>, count: nat,
    station: StationInfo, available: Availability)

  /** `memset(p, 0, sizeof *p)` on each kind of record. */
  function ZeroNetwork(n: NetworkInfo): NetworkInfo {
    NetworkInfo(Zeros(|n.ssid|), 0, 0)
  }

  function ZeroPlatform(p: PlatformInfo): PlatformInfo {
    PlatformInfo(Zeros(|p.deviceInfo|), Zeros(|p.driverInfo|))
  }

  const ZERO_STATION: StationInfo := StationInfo(0, 0, 0)

  predicate PoweredDown(s: Snapshot) {
    !s.available.power || !s.powerOn
  }

  /** The cascade: with the power off or unknown, every polled value is cleared; the power state
      itself and all availability flags are left as polled. */
  function Cascade(s: Snapshot): (r: Snapshot)
    ensures r.available == s.available && r.powerOn == s.powerOn
    ensures |r.ssid| == |s.ssid| && |r.bssid| == |s.bssid| && |r.networks| == |s.networks|
    ensures !PoweredDown(s) ==> r == s
    ensures PoweredDown(s) ==>
      AllZero(r.ssid) && AllZero(r.bssid) && r.count == 0 && r.state80211 == 0 &&
      r.station == ZERO_STATION &&
      AllZero(r.platform.deviceInfo) && AllZero(r.platform.driverInfo) &&
      forall i :: 0 <= i < |r.networks| ==> r.networks[i] == ZeroNetwork(s.networks[i])
  {
    if PoweredDown(s) then
      Snapshot(Zeros(|s.ssid|), Zeros(|s.bssid|), s.powerOn, 0, ZeroPlatform(s.platform),
               seq(|s.networks|, i requires 0 <= i < |s.networks| => ZeroNetwork(s.networks[i])), 0,
               ZERO_STATION, s.available)
    else s
  }

  /** Clearing twice is clearing once. */
  lemma CascadeIdempotent(s: Snapshot)
    ensures Cascade(Cascade(s)) == Cascade(s)
  {
    if PoweredDown(s) {
      var r := Cascade(s);
      assert Zeros(|r.ssid|) == r.ssid;
      assert Zeros(|r.bssid|) == r.bssid;
      assert ZeroPlatform(r.platform) == r.platform;
      assert forall i :: 0 <= i < |r.networks| ==> ZeroNetwork(r.networks[i]) == r.networks[i];
    }
  }

  /** The RSSI the stats panel and the graph read: the station record always counts as present. */
  function StationRssi(s: Snapshot): int {
    s.station.rssi
  }

  /** With the power off, the signal stage shown is "unavailable". */
  lemma PoweredDownIsUnavailable(s: Snapshot)
    requires PoweredDown(s)
    ensures StationRssi(Cascade(s)) == 0
    ensures Signal.RssiToStage(true, StationRssi(Cascade(s))) == Signal.Unavailable
  {
  }

  /** `compareNetworkStrength`: `a` sorts before `b` when its RSSI is closer to zero. */
  predicate Stronger(a: NetworkInfo, b: NetworkInfo) {
    Signal.Abs(a.rssi) < Signal.Abs(b.rssi)
  }

  /** The comparator is a strict weak ordering, as `std::sort` demands of it: irreflexive,
      transitive, and with "neither is stronger" (equal magnitude) transitive as well. */
  lemma StrongerIsStrictWeakOrder(a: NetworkInfo, b: NetworkInfo, c: NetworkInfo)
    ensures !Stronger(a, a)
    ensures Stronger(a, b) ==> !Stronger(b, a)
    ensures Stronger(a, b) && Stronger(b, c) ==> Stronger(a, c)
    ensures !Stronger(a, b) && !Stronger(b, a) && !Stronger(b, c) && !Stronger(c, b) ==>
      !Stronger(a, c) && !Stronger(c, a)
  {
  }

  predicate SortedByStrength(s: seq<NetworkInfo>) {
    forall i, j :: 0 <= i < j < |s| ==> Signal.Abs(s[i].rssi) <= Signal.Abs(s[j].rssi)
  }

  /** One row of the network panel: a scan entry with its number, or a padding row. */
  datatype NetworkRow =
    | EmptyRow
    | Entry(number: nat, ssid: seq<byte>, rssi: int, locked: bool, connected: bool)

  function EntryOf(n: NetworkInfo, number: nat, current: seq<byte>, ssidAvailable: bool): NetworkRow {
    Entry(number, n.ssid, n.rssi, n.rsnProtos != 0, ssidAvailable && SameCString(current, n.ssid))
  }

  /** The entries the panel lists: those whose SSID buffer is not all zero, in order. */
  function Kept(listed: seq<NetworkInfo>): (kept: seq<NetworkInfo>)
    ensures |kept| <= |listed|
    ensures forall i :: 0 <= i < |kept| ==> !AllZero(kept[i].ssid)
  {
    if listed == [] then []
    else if AllZero(listed[0].ssid) then Kept(listed[1..])
    else [listed[0]] + Kept(listed[1..])
  }

  /** The rows the scan loop adds, numbering from `number`. */
  function Rows(listed: seq<NetworkInfo>, number: nat, current: seq<byte>, ssidAvailable: bool): seq<NetworkRow>
    decreases |listed|
  {
    if listed == [] then []
    else if AllZero(listed[0].ssid) then Rows(listed[1..], number, current, ssidAvailable)
    else [EntryOf(listed[0], number, current, ssidAvailable)] + Rows(listed[1..], number + 1, current, ssidAvailable)
  }

  /** The panel pads with empty rows up to `VISIBLE_NETWORKS`. */
  function Padded(rows: seq<NetworkRow>): (r: seq<NetworkRow>)
    ensures |r| == if |rows| < VISIBLE_NETWORKS then VISIBLE_NETWORKS else |rows|
    ensures r[..|rows|] == rows
    ensures forall i :: |rows| <= i < |r| ==> r[i] == EmptyRow
  {
    if |rows| < VISIBLE_NETWORKS then rows + seq(VISIBLE_NETWORKS - |rows|, _ => EmptyRow) else rows
  }

  /** The network panel of a frame, from the (already sorted) first `count` scan entries. */
  function Panel(listed: seq<NetworkInfo>, listAvailable: bool, current: seq<byte>, ssidAvailable: bool): seq<NetworkRow> {
    Padded(if listAvailable then Rows(listed, 1, current, ssidAvailable) else [])
  }

  /** The kept entries are exactly the listed ones with a non-zero SSID. */
  lemma {:induction false} KeptMembers(listed: seq<NetworkInfo>)
    ensures forall n :: n in Kept(listed) <==> n in listed && !AllZero(n.ssid)
    decreases |listed|
  {
    if listed != [] {
      KeptMembers(listed[1..]);
      assert listed == [listed[0]] + listed[1..];
    }
  }

  /** Filtering keeps the strength order. */
  lemma {:induction false} KeptSorted(listed: seq<NetworkInfo>)
    requires SortedByStrength(listed)
    ensures SortedByStrength(Kept(listed))
    decreases |listed|
  {
    if listed != [] {
      assert SortedByStrength(listed[1..]);
      KeptSorted(listed[1..]);
      KeptMembers(listed[1..]);
      if !AllZero(listed[0].ssid) {
        var k := Kept(listed[1..]);
        forall j | 0 <= j < |k|
          ensures Signal.Abs(listed[0].rssi) <= Signal.Abs(k[j].rssi)
        {
          assert k[j] in listed[1..];
        }
      }
    }
  }

  /** The scan loop numbers the kept entries consecutively from `number`, with no gaps. */
  lemma {:induction false} RowsNumbered(listed: seq<NetworkInfo>, number: nat, current: seq<byte>, ssidAvailable: bool)
    ensures var rows := Rows(listed, number, current, ssidAvailable);
      var kept := Kept(listed);
      |rows| == |kept| &&
      forall i :: 0 <= i < |kept| ==> rows[i] == EntryOf(kept[i], number + i, current, ssidAvailable)
    decreases |listed|
  {
    if listed != [] {
      var rest := listed[1..];
      if AllZero(listed[0].ssid) {
        RowsNumbered(rest, number, current, ssidAvailable);
      } else {
        RowsNumbered(rest, number + 1, current, ssidAvailable);
        ConsNumbered(Rows(rest, number + 1, current, ssidAvailable), Kept(rest), listed[0], number, current, ssidAvailable);
      }
    }
  }

  /** A kept entry in front keeps the numbering consecutive. */
  lemma ConsNumbered(tail: seq<NetworkRow>, kept: seq<NetworkInfo>, head: NetworkInfo, number: nat, current: seq<byte>, ssidAvailable: bool)
    requires |tail| == |kept|
    requires forall i :: 0 <= i < |kept| ==> tail[i] == EntryOf(kept[i], number + 1 + i, current, ssidAvailable)
    ensures var rows := [EntryOf(head, number, current, ssidAvailable)] + tail;
      forall i :: 0 <= i < |kept| + 1 ==> rows[i] == EntryOf(([head] + kept)[i], number + i, current, ssidAvailable)
  {
    var rows := [EntryOf(head, number, current, ssidAvailable)] + tail;
    forall i | 1 <= i < |kept| + 1
      ensures rows[i] == EntryOf(([head] + kept)[i], number + i, current, ssidAvailable)
    {
      assert rows[i] == tail[i - 1] && ([head] + kept)[i] == kept[i - 1];
    }
  }

  /** The whole panel: `max(20, k)` rows for `k` kept entries, entry `i` numbered `i + 1`, marked
      locked when it has an RSN protocol and connected when the current SSID is known and equal
      to its SSID; then empty rows. */
  lemma PanelShape(listed: seq<NetworkInfo>, listAvailable: bool, current: seq<byte>, ssidAvailable: bool)
    ensures var panel := Panel(listed, listAvailable, current, ssidAvailable);
      var k := if listAvailable then |Kept(listed)| else 0;
      |panel| == (if k < VISIBLE_NETWORKS then VISIBLE_NETWORKS else k) &&
      (forall i :: 0 <= i < k ==>
         panel[i] == Entry(i + 1, Kept(listed)[i].ssid, Kept(listed)[i].rssi,
                           Kept(listed)[i].rsnProtos != 0,
                           ssidAvailable && SameCString(current, Kept(listed)[i].ssid))) &&
      (forall i :: k <= i < |panel| ==> panel[i] == EmptyRow)
  {
    var rows := if listAvailable then Rows(listed, 1, current, ssidAvailable) else [];
    RowsNumbered(listed, 1, current, ssidAvailable);
    var panel := Padded(rows);
    forall i | 0 <= i < |rows|
      ensures panel[i] == rows[i]
    {
      assert panel[..|rows|][i] == panel[i];
    }
  }

  /** With the power off the panel is twenty empty rows. */
  lemma PoweredDownPanelEmpty(s: Snapshot)
    requires PoweredDown(s)
    ensures var r := Cascade(s);
      Panel(r.networks[..r.count], r.available.networkList, r.ssid, r.available.ssid) == seq(VISIBLE_NETWORKS, _ => EmptyRow)
  {
    var r := Cascade(s);
    assert r.networks[..r.count] == [];
  }

  /** The polled state of the dashboard: C buffers for the SSID, the BSSID and the scan list,
      and the records the getters overwrite. */
  class DeviceState {
    var currentSsid: array<byte>
    var currentBssid: array<byte>
    var currentPowerState: bool
    var current80211State: nat
    var platformInfo: PlatformInfo
    var networks: array<NetworkInfo>
    var networkCount: nat
    var stationInfo: StationInfo
    var available: Availability

    ghost predicate Valid()
      reads this
    {
      currentSsid != currentBssid && networkCount <= networks.Length
    }

    ghost function Snap(): Snapshot
      reads this, currentSsid, currentBssid, networks
    {
      Snapshot(currentSsid[..], currentBssid[..], currentPowerState, current80211State,
               platformInfo, networks[..], networkCount, stationInfo, available)
    }

    /** A fresh start: the SSID and BSSID buffers are zero-initialised (`= {0}`), the power
        flag is off and the 802.11 state 0. The three records allocated with `new` are
        default-initialised, so their contents are whatever `listed`, `count`, `info` and
        `station` are; the first frame's getters overwrite them before anything reads them. */
    constructor (ssidLength: nat, bssidLength: nat, listed: seq<NetworkInfo>, count: nat, info: PlatformInfo, station: StationInfo)
      ensures fresh(currentSsid) && fresh(currentBssid) && fresh(networks)
      ensures currentSsid != currentBssid
      ensures currentSsid.Length == ssidLength && currentBssid.Length == bssidLength
      ensures AllZero(currentSsid[..]) && AllZero(currentBssid[..])
      ensures networks[..] == listed && networkCount == count
      ensures platformInfo == info && stationInfo == station
      ensures !currentPowerState && current80211State == 0
      ensures count <= |listed| ==> Valid()
    {
      currentSsid := new byte[ssidLength](_ => 0);
      currentBssid := new byte[bssidLength](_ => 0);
      networks := new NetworkInfo[|listed|](i requires 0 <= i < |listed| => listed[i]);
      networkCount := count;
      currentPowerState := false;
      current80211State := 0;
      platformInfo := info;
      stationInfo := station;
      available := Availability(false, false, false, false, false, false, false);
    }

    /** The seven getters of one frame, whose results arrive as `polled`. */
    method Refresh(polled: Snapshot)
      requires currentSsid != currentBssid
      requires |polled.ssid| == currentSsid.Length && |polled.bssid| == currentBssid.Length
      requires |polled.networks| == networks.Length && polled.count <= networks.Length
      modifies this, currentSsid, currentBssid, networks
      ensures Valid() && Snap() == polled
      ensures currentSsid == old(currentSsid) && currentBssid == old(currentBssid) && networks == old(networks)
    {
      forall i | 0 <= i < currentSsid.Length {
        currentSsid[i] := polled.ssid[i];
      }
      forall i | 0 <= i < currentBssid.Length {
        currentBssid[i] := polled.bssid[i];
      }
      forall i | 0 <= i < networks.Length {
        networks[i] := polled.networks[i];
      }
      currentPowerState := polled.powerOn;
      current80211State := polled.state80211;
      platformInfo := polled.platform;
      networkCount := polled.count;
      stationInfo := polled.station;
      available := polled.available;
    }

    /** The `memset` cascade run after polling. */
    method ApplyPowerCascade()
      requires Valid()
      modifies this, currentSsid, currentBssid, networks
      ensures Valid() && Snap() == Cascade(old(Snap()))
      ensures currentSsid == old(currentSsid) && currentBssid == old(currentBssid) && networks == old(networks)
    {
      if !available.power || !currentPowerState {
        forall i | 0 <= i < currentSsid.Length {
          currentSsid[i] := 0;
        }
        forall i | 0 <= i < currentBssid.Length {
          currentBssid[i] := 0;
        }
        platformInfo := ZeroPlatform(platformInfo);
        forall i | 0 <= i < networks.Length {
          networks[i] := ZeroNetwork(networks[i]);
        }
        networkCount := 0;
        stationInfo := ZERO_STATION;
        current80211State := 0;
      }
    }

    /** `std::sort` of the first `networkCount` entries by `compareNetworkStrength`, written as an
        insertion sort. */
    method SortNetworks()
      requires Valid()
      modifies networks
      ensures SortedByStrength(networks[..networkCount])
      ensures multiset(networks[..networkCount]) == multiset(old(networks[..networkCount]))
      ensures networks[networkCount..] == old(networks[networkCount..])
    {
      var i := 0;
      while i < networkCount
        invariant 0 <= i <= networkCount
        invariant SortedByStrength(networks[..i])
        invariant multiset(networks[..networkCount]) == multiset(old(networks[..networkCount]))
        invariant networks[networkCount..] == old(networks[networkCount..])
      {
        Insert(i);
        i := i + 1;
      }
    }

    /** One pass of the insertion sort: entry `i` sinks left past every weaker entry. */
    method Insert(i: nat)
      requires Valid() && i < networkCount
      requires SortedByStrength(networks[..i])
      modifies networks
      ensures SortedByStrength(networks[..i + 1])
      ensures multiset(networks[..networkCount]) == multiset(old(networks[..networkCount]))
      ensures networks[networkCount..] == old(networks[networkCount..])
    {
      var n := networkCount;
      var j := i;
      ghost var orig := networks[..];
      ghost var cur := orig;
      assert cur[..i] == networks[..i];
      SinkStarts(cur, i);
      while j > 0 && Key(networks[j - 1]) > Key(networks[j])
        invariant 0 <= j <= i
        invariant networks[..] == cur
        invariant SinkState(cur, orig, i, j, n)
      {
        SinkAdvance(cur, orig, i, j, n);
        networks[j - 1], networks[j] := networks[j], networks[j - 1];
        cur := Swapped(cur, j - 1);
        j := j - 1;
      }
      SinkDone(cur, orig, i, j, n);
      assert cur[..i + 1] == networks[..i + 1];
      assert cur[..n] == networks[..n] && orig[..n] == old(networks[..n]);
      assert cur[n..] == networks[n..] && orig[n..] == old(networks[n..]);
    }

    /** The network panel of a frame: the scan loop, then the padding rows. */
    method NetworkRows() returns (rows: seq<NetworkRow>)
      requires Valid()
      ensures rows == Panel(networks[..networkCount], available.networkList, currentSsid[..], available.ssid)
    {
      rows := [];
      if available.networkList {
        rows := ScanRows(networks, networkCount, currentSsid[..], available.ssid);
      }
      rows := PadRows(rows);
    }
  }

  /** The scan loop over the first `count` entries: skip an all-zero SSID, number the others by
      `amount`, and mark the locked and the connected ones. */
  method ScanRows(networks: array<NetworkInfo>, count: nat, current: seq<byte>, ssidAvailable: bool)
      returns (rows: seq<NetworkRow>)
    requires count <= networks.Length
    ensures rows == Rows(networks[..count], 1, current, ssidAvailable)
  {
    ghost var listed := networks[..count];
    rows := [];
    var amount := 0;
    var i := 0;
    while i < count
      invariant 0 <= i <= count
      invariant rows + Rows(listed[i..], amount + 1, current, ssidAvailable) == Rows(listed, 1, current, ssidAvailable)
    {
      var network := networks[i];
      assert listed[i..] == [network] + listed[i + 1..];
      if !AllZero(network.ssid) {
        var connected := SameCString(current, network.ssid);
        rows := rows + [Entry(amount + 1, network.ssid, network.rssi, network.rsnProtos != 0,
                              ssidAvailable && connected)];
        amount := amount + 1;
      }
      i := i + 1;
    }
    assert listed[count..] == [];
  }

  /** The padding loop: empty rows until there are `VISIBLE_NETWORKS`. */
  method PadRows(entries: seq<NetworkRow>) returns (rows: seq<NetworkRow>)
    ensures rows == Padded(entries)
  {
    rows := entries;
    while |rows| < VISIBLE_NETWORKS
      invariant |entries| <= |rows|
      invariant rows[..|entries|] == entries
      invariant forall i :: |entries| <= i < |rows| ==> rows[i] == EmptyRow
      invariant |rows| <= VISIBLE_NETWORKS || rows == entries
    {
      rows := rows + [EmptyRow];
    }
  }

  function Key(n: NetworkInfo): nat {
    Signal.Abs(n.rssi)
  }

  /** The state of an insertion pass that has moved entry `i` down to `j`: the other entries of
      `s[..i + 1]` are in order, and every entry right of `j` is at least as weak. */
  predicate Sinking(s: seq<NetworkInfo>, i: nat, j: nat) {
    j <= i < |s| &&
    (forall a, b :: 0 <= a < b <= i && a != j && b != j ==> Key(s[a]) <= Key(s[b])) &&
    (forall b :: j < b <= i ==> Key(s[j]) <= Key(s[b]))
  }

  /** The state of one pass of the insertion sort over the first `n` entries of `orig`: entry
      `i`, now at `j`, is sinking, and the entries are those of `orig` rearranged within `n`. */
  predicate SinkState(cur: seq<NetworkInfo>, orig: seq<NetworkInfo>, i: nat, j: nat, n: nat) {
    i < n <= |cur| == |orig| && Sinking(cur, i, j) &&
    multiset(cur[..n]) == multiset(orig[..n]) && cur[n..] == orig[n..]
  }

  lemma SinkAdvance(cur: seq<NetworkInfo>, orig: seq<NetworkInfo>, i: nat, j: nat, n: nat)
    requires SinkState(cur, orig, i, j, n) && 0 < j && Key(cur[j - 1]) > Key(cur[j])
    ensures SinkState(Swapped(cur, j - 1), orig, i, j - 1, n)
  {
    SwapInPrefix(cur, j - 1, n);
    SinkStep(cur, i, j);
  }

  lemma SinkDone(cur: seq<NetworkInfo>, orig: seq<NetworkInfo>, i: nat, j: nat, n: nat)
    requires SinkState(cur, orig, i, j, n) && (j == 0 || Key(cur[j - 1]) <= Key(cur[j]))
    ensures SortedByStrength(cur[..i + 1])
  {
    SinkEnds(cur, i, j);
  }

  lemma SinkStarts(s: seq<NetworkInfo>, i: nat)
    requires i < |s| && SortedByStrength(s[..i])
    ensures Sinking(s, i, i)
  {
    forall a, b | 0 <= a < b <= i && a != i && b != i
      ensures Key(s[a]) <= Key(s[b])
    {
      assert s[a] == s[..i][a] && s[b] == s[..i][b];
    }
  }

  /** `s` with entries `k` and `k + 1` exchanged. */
  function Swapped(s: seq<NetworkInfo>, k: nat): (r: seq<NetworkInfo>)
    requires k + 1 < |s|
    ensures |r| == |s|
  {
    s[k := s[k + 1]][k + 1 := s[k]]
  }

  lemma SinkStep(s: seq<NetworkInfo>, i: nat, j: nat)
    requires Sinking(s, i, j) && 0 < j && Key(s[j - 1]) > Key(s[j])
    ensures Sinking(Swapped(s, j - 1), i, j - 1)
  {
  }

  lemma SinkEnds(s: seq<NetworkInfo>, i: nat, j: nat)
    requires Sinking(s, i, j) && (j == 0 || Key(s[j - 1]) <= Key(s[j]))
    ensures SortedByStrength(s[..i + 1])
  {
    forall a, b | 0 <= a < b < i + 1
      ensures Key(s[a]) <= Key(s[b])
    {
      if b == j && a < j - 1 {
        assert Key(s[a]) <= Key(s[j - 1]);
      }
    }
  }

  /** A swap inside the first `n` entries permutes them and leaves the rest alone. */
  lemma SwapInPrefix(s: seq<NetworkInfo>, k: nat, n: nat)
    requires k + 1 < n <= |s|
    ensures multiset(Swapped(s, k)[..n]) == multiset(s[..n])
    ensures Swapped(s, k)[n..] == s[n..]
  {
    var p := s[..n];
    assert p == p[..k] + [p[k], p[k + 1]] + p[k + 2..];
    assert Swapped(s, k)[..n] == p[..k] + [p[k + 1], p[k]] + p[k + 2..];
  }
}
