/** One frame of the current dashboard's renderer (main.cpp): the log window, the seven polls of
    the driver, the power cascade, the signal stage, the sorted network panel and the sampling of
    the signal history, in the order the renderer performs them. */
module Frame {
  import opened Text
  import Signal
  import Device
  import Console

  /** The power state as the stats panel spells it. */
  function PowerLabel(available: bool, on: bool): (name: string)
    ensures name == "On" <==> available && on
    ensures name == "Unavailable" <==> !available
    ensures name == "Off" <==> available && !on
  {
    if !available then "Unavailable" else if on then "On" else "Off"
  }

  /** What the stats panel reads: the power and 802.11 state labels, the signal stage and the
      RSSI that is also the next sample of the history. */
  datatype Stats = Stats(power: string, state: string, stage: Signal.Stage, rssi: int)

  /** The readings the polled values give once they have been through the power cascade (the
      station record always counts as present). */
  function StatsOf(polled: Device.Snapshot): (st: Stats)
    requires Signal.INT_MIN < polled.station.rssi <= Signal.INT_MAX
    requires polled.state80211 < 0x1_0000_0000
    ensures Device.PoweredDown(polled) ==>
      st.power != "On" && st.stage == Signal.Unavailable && st.rssi == 0 &&
      st.state == (if polled.available.state80211 then "Idle (Default)" else "Unavailable")
    ensures !Device.PoweredDown(polled) ==>
      st.power == "On" && st.rssi == polled.station.rssi &&
      st.stage == Signal.RssiToStage(true, polled.station.rssi) &&
      st.state == Signal.StateLabel(polled.available.state80211, polled.state80211)
  {
    var s := Device.Cascade(polled);
    Stats(PowerLabel(s.available.power, s.powerOn), Signal.StateLabel(s.available.state80211, s.state80211),
          Signal.RssiToStage(true, s.station.rssi), s.station.rssi)
  }

  /** With the power off, a frame shows no signal, an empty network panel and samples zero. */
  lemma PoweredDownFrame(polled: Device.Snapshot, listed: seq<Device.NetworkInfo>)
    requires Signal.INT_MIN < polled.station.rssi <= Signal.INT_MAX
    requires polled.state80211 < 0x1_0000_0000
    requires Device.PoweredDown(polled)
    requires var s := Device.Cascade(polled); multiset(listed) == multiset(s.networks[..s.count])
    ensures StatsOf(polled).stage == Signal.Unavailable && StatsOf(polled).rssi == 0
    ensures var s := Device.Cascade(polled);
      Device.Panel(listed, s.available.networkList, s.ssid, s.available.ssid) == seq(Device.VISIBLE_NETWORKS, _ => Device.EmptyRow)
  {
    var s := Device.Cascade(polled);
    Device.PoweredDownPanelEmpty(polled);
    assert s.networks[..s.count] == [];
    assert |listed| == |multiset(listed)| == 0;
  }

  /** The renderer's body for one frame. `polled` is what the seven getters return this frame and
      `sampleDue` whether 200 ms have passed since the last sample. */
  method RenderFrame(dash: Console.Dashboard, dev: Device.DeviceState, polled: Device.Snapshot, sampleDue: bool)
      returns (log: seq<LogRow>, panel: seq<Device.NetworkRow>, stats: Stats, ghost listed: seq<Device.NetworkInfo>)
    requires Console.WindowDefined(dash.View())
    requires dev.currentSsid != dev.currentBssid
    requires |polled.ssid| == dev.currentSsid.Length && |polled.bssid| == dev.currentBssid.Length
    requires |polled.networks| == dev.networks.Length && polled.count <= dev.networks.Length
    requires Signal.INT_MIN < polled.station.rssi <= Signal.INT_MAX
    requires polled.state80211 < 0x1_0000_0000
    modifies dash, dev, dev.currentSsid, dev.currentBssid, dev.networks
    ensures log == Console.WindowOf(old(dash.View()))
    ensures stats == StatsOf(polled)
    ensures var s := Device.Cascade(polled);
      multiset(listed) == multiset(s.networks[..s.count]) &&
      (s.available.networkList ==> Device.SortedByStrength(listed)) &&
      (!s.available.networkList ==> listed == s.networks[..s.count]) &&
      panel == Device.Panel(listed, s.available.networkList, s.ssid, s.available.ssid)
    ensures dash.signalStrengths == old(dash.signalStrengths) + (if sampleDue then [stats.rssi] else [])
    ensures dash.State() == old(dash.State())
  {
    log := dash.Window();
    dev.Refresh(polled);
    dev.ApplyPowerCascade();
    ghost var s := Device.Cascade(polled);
    assert dev.stationInfo == s.station && dev.currentPowerState == s.powerOn;
    var stage := Signal.RssiToStage(true, dev.stationInfo.rssi);
    stats := Stats(PowerLabel(dev.available.power, dev.currentPowerState),
                   Signal.StateLabel(dev.available.state80211, dev.current80211State),
                   stage, dev.stationInfo.rssi);
    if dev.available.networkList {
      dev.SortNetworks();
    }
    listed := dev.networks[..dev.networkCount];
    panel := dev.NetworkRows();
    if sampleDue {
      dash.Sample(dev.stationInfo.rssi);
    }
  }
}
