/** Joining a WiFi network, as `src/connect-wifi.cpp` does it: scan, take the
    first visible network (in scan order) whose SSID is on the known list,
    join it, and fall back to opening an access point of the device's own when
    nothing matches or nothing is visible. The radio is modelled by what the
    scan reports and by which network was joined or whether the access point
    was opened. */
module ConnectWifi {
  import opened Wrappers

  /** The known SSIDs, in the order the matching loop walks them. */
  const KNOWN_SSID: seq<string> := ["DRW", "ChrisnAimee.com"]

  /** The host name `createWifi` returns. */
  const AP_HOST: string := "DRW.local"

  /** What `connectToWifi` returns when no visible network is known. */
  const NO_WIFI_MESSAGE: string := "No WiFi found, creating our own"

  const CONNECTED_PREFIX: string := "Connected to: "
  const NO_NETWORKS_MESSAGE: string := "No networks found"

  /** The first index of `s` on the list `known`. */
  function KnownIndex(known: seq<string>, s: string): (r: Option<nat>)
    ensures r.None? <==> s !in known
    ensures r.Some? ==>
      && r.value < |known| && known[r.value] == s
      && (forall m :: 0 <= m < r.value ==> known[m] != s)
    decreases |known|
  {
    if known == [] then None
    else if known[0] == s then Some(0)
    else
      match KnownIndex(known[1..], s)
      case None => None
      case Some(m) => Some(m + 1)
  }

  /** The outcome of the two nested matching loops, scanning `visible` from
      position `i` on: the position of the first known SSID and its index on
      the known list. */
  function MatchFrom(visible: seq<string>, known: seq<string>, i: nat): (r: Option<(nat, nat)>)
    requires i <= |visible|
    ensures r.None? <==> forall j :: i <= j < |visible| ==> visible[j] !in known
    ensures r.Some? ==>
      && i <= r.value.0 < |visible|
      && (forall j :: i <= j < r.value.0 ==> visible[j] !in known)
      && KnownIndex(known, visible[r.value.0]) == Some(r.value.1)
    decreases |visible| - i
  {
    if i == |visible| then None
    else
      match KnownIndex(known, visible[i])
      case Some(n) => Some((i, n))
      case None => MatchFrom(visible, known, i + 1)
  }

  /** The selected network: the first visible SSID, in scan order, that is on
      the known list, given as its position in the scan and its index on the
      list (the first index holding that SSID). */
  function FirstMatch(visible: seq<string>, known: seq<string>): (r: Option<(nat, nat)>)
    ensures r.None? <==> forall j :: 0 <= j < |visible| ==> visible[j] !in known
    ensures r.Some? ==>
      && r.value.0 < |visible| && r.value.1 < |known|
      && known[r.value.1] == visible[r.value.0]
      && (forall j :: 0 <= j < r.value.0 ==> visible[j] !in known)
      && (forall m :: 0 <= m < r.value.1 ==> known[m] != visible[r.value.0])
  {
    MatchFrom(visible, known, 0)
  }

  /** The scan order decides, not the order of the known list: with both known
      networks visible, the one reported first is joined. */
  lemma ScanOrderWins()
    ensures FirstMatch(["guest", "ChrisnAimee.com", "DRW"], KNOWN_SSID) == Some((1, 1))
  {
    assert KnownIndex(KNOWN_SSID, "guest") == None;
    assert KnownIndex(KNOWN_SSID, "ChrisnAimee.com") == Some(1);
  }

  /** The same SSID reported twice is joined at its first position. */
  lemma {:induction false} MatchIgnoresLaterDuplicates(visible: seq<string>, known: seq<string>, extra: seq<string>)
    requires FirstMatch(visible, known).Some?
    ensures FirstMatch(visible + extra, known) == FirstMatch(visible, known)
  {
    var r := FirstMatch(visible, known).value;
    forall j | 0 <= j <= r.0
      ensures (visible + extra)[j] == visible[j]
    {
    }
  }

  /** What the radio shows of the device's network state: the last scan and
      what the device did with it. */
  class WifiLink {
    /** The count the last scan returned (negative when the scan failed). */
    var visibleNetworks: int
    /** The SSIDs the last scan reported, in scan order. */
    var ssids: seq<string>
    /** The known network joined, by its index on the known list. */
    var joined: Option<nat>
    /** Whether the device opened its own access point. */
    var accessPointOpen: bool

    ghost predicate Valid()
      reads this
    {
      visibleNetworks <= |ssids|
    }

    /** The visible networks the matching loop walks. */
    function Visible(): (v: seq<string>)
      reads this
      requires Valid()
    {
      if visibleNetworks <= 0 then [] else ssids[..visibleNetworks]
    }

    constructor ()
      ensures Valid() && visibleNetworks == 0 && ssids == [] && joined == None && !accessPointOpen
    {
      visibleNetworks := 0;
      ssids := [];
      joined := None;
      accessPointOpen := false;
    }

    /** `scanForWifi`: `count` is what the scan returns and `names` the SSIDs
        it reports, one for each network found. */
    method ScanForWifi(count: int, names: seq<string>) returns (networks: int)
      requires count <= |names|
      modifies this
      ensures Valid() && networks == count
      ensures visibleNetworks == count && ssids == names
      ensures joined == old(joined) && accessPointOpen == old(accessPointOpen)
    {
      visibleNetworks := count;
      ssids := names;
      networks := visibleNetworks;
    }

    /** `createWifi`: opens the access point and names the host to browse to. */
    method CreateWifi() returns (host: string)
      modifies this
      ensures host == AP_HOST && accessPointOpen
      ensures visibleNetworks == old(visibleNetworks) && ssids == old(ssids) && joined == old(joined)
    {
      accessPointOpen := true;
      host := "DRW.local";
    }

    /** `connectToWifi`: the two nested search loops, then either joining the
        network found (returning its SSID) or opening the access point. */
    method ConnectToWifi() returns (name: string)
      requires Valid()
      modifies this
      ensures Valid() && visibleNetworks == old(visibleNetworks) && ssids == old(ssids)
      ensures match FirstMatch(old(Visible()), KNOWN_SSID)
        case Some((i, n)) =>
          name == KNOWN_SSID[n] && joined == Some(n) && accessPointOpen == old(accessPointOpen)
        case None =>
          name == NO_WIFI_MESSAGE && joined == old(joined) && accessPointOpen
    {
      var i := 0;
      var n := 0;
      var wifiFound := false;
      while i < visibleNetworks
        invariant 0 <= i <= |Visible()|
        invariant !wifiFound ==> MatchFrom(Visible(), KNOWN_SSID, 0) == MatchFrom(Visible(), KNOWN_SSID, i)
        invariant wifiFound ==> FirstMatch(Visible(), KNOWN_SSID) == Some((i, n))
        decreases visibleNetworks - i
      {
        n := 0;
        while n < |KNOWN_SSID|
          invariant 0 <= n <= |KNOWN_SSID|
          invariant forall m :: 0 <= m < n ==> KNOWN_SSID[m] != Visible()[i]
        {
          if KNOWN_SSID[n] == Visible()[i] {
            wifiFound := true;
            break;
          }
          n := n + 1;
        }
        if wifiFound {
          break;
        }
        i := i + 1;
      }
      if wifiFound {
        joined := Some(n);
        return KNOWN_SSID[n];
      } else {
        var _ := CreateWifi();
        return NO_WIFI_MESSAGE;
      }
    }

    /** `initWifi`: scan, then match when something is visible and open the
        access point otherwise. The result is the status message the source
        builds. */
    method InitWifi(count: int, names: seq<string>) returns (message: string)
      requires count <= |names|
      modifies this
      ensures Valid() && visibleNetworks == count && ssids == names
      ensures count <= 0 ==>
        message == NO_NETWORKS_MESSAGE && accessPointOpen && joined == old(joined)
      ensures count > 0 ==> match FirstMatch(names[..count], KNOWN_SSID)
        case Some((i, n)) =>
          message == CONNECTED_PREFIX + KNOWN_SSID[n] && joined == Some(n) && accessPointOpen == old(accessPointOpen)
        case None => message == CONNECTED_PREFIX + NO_WIFI_MESSAGE && accessPointOpen && joined == old(joined)
    {
      var networks := ScanForWifi(count, names);
      if networks > 0 {
        var wifiName := ConnectToWifi();
        message := CONNECTED_PREFIX + wifiName;
      } else {
        message := NO_NETWORKS_MESSAGE;
        var _ := CreateWifi();
      }
    }
  }
}
