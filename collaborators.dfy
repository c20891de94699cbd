/** The types the aggregator and the classifiers receive from the rest of the library.
    Each holds only what the core reads; the core stores the others without looking inside. */
module Collaborators {

  /** SSID: raw bytes plus the display text (the 32-byte limit is documented, not enforced). */
  datatype NetworkIdentifier = NetworkIdentifier(rawBytes: seq<bv8>, text: string)

  /** BSS network type; only stored by the core, so kept as its native code. */
  datatype BssType = BssType(code: int)

  /** Encryption type of a network; only stored by the core, so kept as its native code. */
  datatype EncryptionType = EncryptionType(code: int)

  /** One physical (BSS) observation of a network: the four attributes the group record reads.
      The frequency band is a C# float that is only copied, so it is kept as a real. */
  datatype BssNetworkPack = BssNetworkPack(LinkQuality: int, Frequency: int, Band: real, Channel: int)

  /** The native authentication algorithm code. Only the six codes the classifier recognises
      are named; every other member of the native enumeration is `Other`. */
  datatype Dot11AuthAlgorithm =
    | DOT11_AUTH_ALGO_80211_OPEN
    | DOT11_AUTH_ALGO_80211_SHARED_KEY
    | DOT11_AUTH_ALGO_WPA
    | DOT11_AUTH_ALGO_WPA_PSK
    | DOT11_AUTH_ALGO_RSNA
    | DOT11_AUTH_ALGO_RSNA_PSK
    | Other

  /** The state a wireless interface reports. The interface layer may change it after a
      network record has been built, so its fields are mutable. */
  class InterfaceConnectionInfo {
    var IsConnected: bool
    var ProfileName: string

    constructor (isConnected: bool, profileName: string)
      ensures IsConnected == isConnected && ProfileName == profileName
    {
      IsConnected := isConnected;
      ProfileName := profileName;
    }
  }
}
