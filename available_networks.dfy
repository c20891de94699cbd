/** The available-network records: one logical network, and the variant that also groups
    the network's BSS observations and copies the attributes of the best one. */
module AvailableNetworks {
  import opened Collaborators
  import opened LinkQualityOrder
  import Authentication

  /** `string.Equals(a, b, StringComparison.Ordinal)`: equal lengths and the same character
      at every position, with no culture or case rules. */
  function OrdinalEquals(a: string, b: string): (r: bool)
    ensures r <==> a == b
  {
    if |a| != |b| then false
    else if a == [] then true
    else
      assert a == [a[0]] + a[1..] && b == [b[0]] + b[1..];
      a[0] == b[0] && OrdinalEquals(a[1..], b[1..])
  }

  /** An immutable record of one available network. Every field is set once by the
      constructor; `IsConnected` is recomputed from the interface on each read. */
  class AvailableNetworkPack {
    const Interface: InterfaceConnectionInfo
    const Ssid: NetworkIdentifier
    const BssType: BssType
    const SignalQuality: int
    const IsSecurityEnabled: bool
    const ProfileName: string
    const NetworkConnectable: bool
    const WlanNotConnectableReason: string
    const Authentication: Authentication.AuthenticationMethod
    const Encryption: EncryptionType

    /** Connected now: the interface reports a connection and its profile name is ordinally
        equal to this network's. Reads the interface's current state; nothing is cached. */
    function IsConnected(): (r: bool)
      reads Interface
      ensures r <==> Interface.IsConnected && ProfileName == Interface.ProfileName
    {
      Interface.IsConnected && OrdinalEquals(ProfileName, Interface.ProfileName)
    }

    /** Stores every argument as given; nothing is validated. */
    constructor (
      interfaceInfo: InterfaceConnectionInfo,
      ssid: NetworkIdentifier,
      bssType: BssType,
      signalQuality: int,
      isSecurityEnabled: bool,
      profileName: string,
      isNetworkConnectable: bool,
      wlanNotConnectableReason: string,
      authenticationMethod: Authentication.AuthenticationMethod,
      encryptionType: EncryptionType)
      ensures Interface == interfaceInfo && Ssid == ssid && BssType == bssType
      ensures SignalQuality == signalQuality && IsSecurityEnabled == isSecurityEnabled
      ensures ProfileName == profileName && NetworkConnectable == isNetworkConnectable
      ensures WlanNotConnectableReason == wlanNotConnectableReason
      ensures Authentication == authenticationMethod && Encryption == encryptionType
    {
      Interface := interfaceInfo;
      Ssid := ssid;
      BssType := bssType;
      SignalQuality := signalQuality;
      IsSecurityEnabled := isSecurityEnabled;
      ProfileName := profileName;
      NetworkConnectable := isNetworkConnectable;
      WlanNotConnectableReason := wlanNotConnectableReason;
      Authentication := authenticationMethod;
      Encryption := encryptionType;
    }
  }

  /** Because `IsConnected` is not cached, the same record stops reporting a connection once
      its interface switches to another profile, and starts again when it switches back. */
  twostate lemma IsConnectedFollowsInterface(n: AvailableNetworkPack)
    requires old(n.Interface.IsConnected) && n.Interface.IsConnected
    ensures (old(n.Interface.ProfileName) == n.ProfileName && n.Interface.ProfileName != n.ProfileName)
              ==> old(n.IsConnected()) && !n.IsConnected()
    ensures (old(n.Interface.ProfileName) != n.ProfileName && n.Interface.ProfileName == n.ProfileName)
              ==> !old(n.IsConnected()) && n.IsConnected()
  {
  }

  /** A network record together with its BSS observations, kept in descending link quality,
      and the link quality, frequency, band and channel of the best of them. The base record
      is a component here, since Dafny classes do not inherit. */
  class AvailableNetworkGroupPack {
    const Base: AvailableNetworkPack
    /** The sorted observations as the array the record builds (`_bssNetworks`). */
    const sortedBss: array<BssNetworkPack>
    /** The same observations as an immutable sequence: what the read-only view exposes. */
    const observations: seq<BssNetworkPack>
    const LinkQuality: int
    const Frequency: int
    const Band: real
    const Channel: int

    /** The record's invariant: the observations are ordered and the representative fields
        are those of the first one, or zero when there is none. It reads only constant
        fields, so once established it holds for the record's whole lifetime. */
    ghost predicate Valid()
    {
      SortedByLinkQuality(observations) &&
      (observations == [] ==> LinkQuality == 0 && Frequency == 0 && Band == 0.0 && Channel == 0) &&
      (observations != [] ==>
        LinkQuality == observations[0].LinkQuality && Frequency == observations[0].Frequency &&
        Band == observations[0].Band && Channel == observations[0].Channel)
    }

    /** The observations, read-only, best first: no exposed observation has a higher link
        quality than the record's representative one, which is the first. */
    function BssNetworks(): (r: seq<BssNetworkPack>)
      ensures Valid() ==> SortedByLinkQuality(r)
      ensures Valid() && r != [] ==> r[0].LinkQuality == LinkQuality
      ensures Valid() ==> forall x :: x in r ==> x.LinkQuality <= LinkQuality
    {
      SortedHeadIsMaximum(observations);
      observations
    }

    /** Passes the base fields through, stores the observations stably sorted by descending
        link quality, and copies the four attributes of the first one when there is one. */
    constructor (
      interfaceInfo: InterfaceConnectionInfo,
      ssid: NetworkIdentifier,
      bssType: BssType,
      signalQuality: int,
      isSecurityEnabled: bool,
      profileName: string,
      isNetworkConnectable: bool,
      wlanNotConnectableReason: string,
      authenticationMethod: Authentication.AuthenticationMethod,
      encryptionType: EncryptionType,
      bssNetworks: seq<BssNetworkPack>)
      ensures fresh(Base) && fresh(sortedBss)
      ensures Base.Interface == interfaceInfo && Base.Ssid == ssid && Base.BssType == bssType
      ensures Base.SignalQuality == signalQuality && Base.IsSecurityEnabled == isSecurityEnabled
      ensures Base.ProfileName == profileName && Base.NetworkConnectable == isNetworkConnectable
      ensures Base.WlanNotConnectableReason == wlanNotConnectableReason
      ensures Base.Authentication == authenticationMethod && Base.Encryption == encryptionType
      ensures Valid()
      ensures sortedBss[..] == BssNetworks()
      ensures BssNetworks() == OrderByLinkQualityDescending(bssNetworks)
      ensures multiset(BssNetworks()) == multiset(bssNetworks)
      ensures forall q :: WithLinkQuality(BssNetworks(), q) == WithLinkQuality(bssNetworks, q)
      ensures bssNetworks == [] ==> LinkQuality == 0 && Frequency == 0 && Band == 0.0 && Channel == 0
      ensures bssNetworks != [] ==>
                exists k :: IsFirstMaximum(bssNetworks, k) &&
                  LinkQuality == bssNetworks[k].LinkQuality && Frequency == bssNetworks[k].Frequency &&
                  Band == bssNetworks[k].Band && Channel == bssNetworks[k].Channel
    {
      Base := new AvailableNetworkPack(
        interfaceInfo, ssid, bssType, signalQuality, isSecurityEnabled, profileName,
        isNetworkConnectable, wlanNotConnectableReason, authenticationMethod, encryptionType);
      var sorted := OrderByLinkQualityDescending(bssNetworks);
      var a := new BssNetworkPack[|sorted|](i requires 0 <= i < |sorted| => sorted[i]);
      sortedBss := a;
      observations := a[..];
      assert a[..] == sorted;
      var linkQuality, frequency, band, channel := 0, 0, 0.0, 0;
      if a.Length > 0 {
        var best := a[0];
        linkQuality, frequency, band, channel := best.LinkQuality, best.Frequency, best.Band, best.Channel;
      }
      LinkQuality := linkQuality;
      Frequency := frequency;
      Band := band;
      Channel := channel;
      forall q ensures WithLinkQuality(sorted, q) == WithLinkQuality(bssNetworks, q) {
        OrderIsStable(bssNetworks, q);
      }
      if bssNetworks != [] {
        HeadIsFirstMaximum(bssNetworks);
      }
    }
  }
}
