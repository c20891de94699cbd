# ManagedNativeWifi: available-network records and fail-soft classifiers

This Dafny project models two pieces of the ManagedNativeWifi library and proves what they promise.

**The network aggregator** (`AvailableNetworkPack.cs`):
- `AvailableNetworkPack` is an immutable record whose constructor stores every argument as given.
- Its `IsConnected` property is recomputed on each read. It holds when the associated interface reports a connection and the interface's profile name is ordinally equal to the record's.
- `AvailableNetworkGroupPack` adds the network's BSS observations. It stores them stably sorted by descending link quality, which is LINQ `OrderByDescending(...).ToArray()`.
- It copies link quality, frequency, band and channel from the first (best) observation. With no observations those four fields stay zero.

**The classifiers** (`AuthenticationMethod.cs`, `KeyTypes.cs`):
- Each is a closed lookup table shaped `bool Try*(source, out value)`.
- Authentication methods come from native `DOT11_AUTH_ALGORITHM` codes or from profile XML tokens. Key types come from profile XML tokens.
- Unknown input gives `false` and the enumeration's default member.

Modules:
- `Wrappers`: `TryResult<T>`, the returned flag together with the out value.
- `Collaborators`: the types the core receives but does not define: SSID, BSS type, encryption type, BSS observation, interface state, and the native authentication code.
- `Authentication`: the `AuthenticationMethod` enumeration, its two converters, and the inverse tables (`NativeCode`, `ProfileToken`) the converters are specified against.
- `KeyType`: the `KeyTypes` enumeration, its converter and its inverse table `Token`.
- `LinkQualityOrder`: the stable descending sort as a pure insertion sort, with lemmas for ordering, permutation, stability, uniqueness of the stable order, and "the head is the first maximum".
- `AvailableNetworks`: the two record classes. Their fields are `const`s, so they are assigned once, in the constructor. The interface state is a mutable object the record only reads.

Design points:
- C# inheritance is modelled by composition. The group record holds its base record in its `Base` field and passes every base argument to it unchanged.
- The sorted observations are kept in an `array`, as the source's `ToArray` does. The record also keeps the same observations as a constant sequence, and `BssNetworks()` exposes that sequence in place of `Array.AsReadOnly`.
- Ordinal string comparison is modelled character by character (`OrdinalEquals`) and proved to be plain equality of Dafny character sequences.

## Model

| member | source | states |
|---|---|---|
| `Authentication.TryConvert` | ManagedNativeWifi/AuthenticationMethod.cs:62-87 | succeeds exactly for the six named native codes. A success gives a method other than `None` whose native code is the input. Any other code gives `false` and `None`. |
| `Authentication.ConvertRecognisesEveryMethod` | ManagedNativeWifi/AuthenticationMethod.cs:66-83 | every valid method's native code converts to that method with `true`. With `TryConvert`'s contract this fixes the whole code table. |
| `Authentication.TryParse` | ManagedNativeWifi/AuthenticationMethod.cs:89-114 | a success gives a method other than `None` whose canonical profile token is exactly the input. Otherwise `false` and `None`. |
| `Authentication.ParseRecognisesEveryMethod` | ManagedNativeWifi/AuthenticationMethod.cs:93-110 | every valid method's token ("open", "shared", "WPA", "WPAPSK", "WPA2", "WPA2PSK") parses to that method with `true`. |
| `Authentication.ParseIsCaseSensitive` | ManagedNativeWifi/AuthenticationMethod.cs:91-113 | "Open", "SHARED", "wpa2psk" and the empty string are rejected with `None`. |
| `Authentication.ConvertIsInjective` | ManagedNativeWifi/AuthenticationMethod.cs:66-83 | two codes that convert to the same method are the same code |
| `Authentication.ParseIsInjective` | ManagedNativeWifi/AuthenticationMethod.cs:93-110 | two tokens that parse to the same method are the same token |
| `Authentication.CodeAndTokenAgree` | ManagedNativeWifi/AuthenticationMethod.cs:38-56 | a recognised code and the token of its method classify to the same result, matching the profile-XML remarks (e.g. RSNA_PSK and "WPA2PSK" both give WPA2_Personal) |
| `Authentication.TokenAndCodeAgree` | ManagedNativeWifi/AuthenticationMethod.cs:38-56 | a recognised token and the native code of its method classify to the same result |
| `Authentication.ConvertersReachTheSameMethods` | ManagedNativeWifi/AuthenticationMethod.cs:62-114 | some code and some token succeed with method m exactly when m is not `None` |
| `KeyType.TryParse` | ManagedNativeWifi/KeyTypes.cs:36-54 | the flag is true exactly when the value is `NetworkKey` or `PassPhrase`, and the value's token is then the input. Otherwise the value is `None`. |
| `KeyType.ParseRecognisesEveryToken` | ManagedNativeWifi/KeyTypes.cs:43-50 | "networkKey" gives `NetworkKey` and "passPhrase" gives `PassPhrase`, both with `true` |
| `KeyType.SuccessNeverGivesNone` | ManagedNativeWifi/KeyTypes.cs:18-54 | the value is `None` exactly when the parse failed. `None` is documented as valid, yet no successful parse yields it. |
| `KeyType.ParseIsCaseSensitive` | ManagedNativeWifi/KeyTypes.cs:41-53 | "NetworkKey", "PassPhrase" and "None" are rejected with `None` |
| `LinkQualityOrder.Insert` | ManagedNativeWifi/AvailableNetworkPack.cs:162 | inserting adds exactly the one element, as a multiset, and the new head is either that element or the old head |
| `LinkQualityOrder.InsertKeepsOrder` | ManagedNativeWifi/AvailableNetworkPack.cs:162 | inserting into a non-increasing sequence keeps it non-increasing |
| `LinkQualityOrder.OrderByLinkQualityDescending` | ManagedNativeWifi/AvailableNetworkPack.cs:162 | the result is a permutation of the input, duplicates kept, ordered by non-increasing link quality |
| `LinkQualityOrder.InsertKeepsEqualsInOrder` | ManagedNativeWifi/AvailableNetworkPack.cs:162 | an inserted observation lands before every observation of its own quality |
| `LinkQualityOrder.OrderIsStable` | ManagedNativeWifi/AvailableNetworkPack.cs:162 | for every link quality, the observations that have it keep their relative input order |
| `LinkQualityOrder.InWithLinkQuality` | ManagedNativeWifi/AvailableNetworkPack.cs:162 | the per-quality subsequence holds exactly the observations of that quality |
| `LinkQualityOrder.StableOrderIsUnique` | ManagedNativeWifi/AvailableNetworkPack.cs:162 | two sorted sequences with the same per-quality subsequences are equal |
| `LinkQualityOrder.StableSortIsOrderByLinkQualityDescending` | ManagedNativeWifi/AvailableNetworkPack.cs:162 | every stable descending sort of the input, LINQ's included, equals the modelled order |
| `LinkQualityOrder.FirstMaximumOfCons` | ManagedNativeWifi/AvailableNetworkPack.cs:162-164 | the first maximum of a sequence is its first element or the first maximum of the rest, whichever has the higher quality, the first element winning ties |
| `LinkQualityOrder.HeadIsFirstMaximum` | ManagedNativeWifi/AvailableNetworkPack.cs:162-171 | for a non-empty input, the first sorted element has the greatest link quality of all inputs and is the earliest input that has it |
| `LinkQualityOrder.OrdersByDescendingQuality` | ManagedNativeWifi/AvailableNetworkPack.cs:162 | qualities 10, 90, 50 come out as 90, 50, 10 |
| `LinkQualityOrder.KeepsOrderOfEqualQualities` | ManagedNativeWifi/AvailableNetworkPack.cs:162 | two observations of equal quality keep their input order |
| `AvailableNetworks.OrdinalEquals` | ManagedNativeWifi/AvailableNetworkPack.cs:73 | character-by-character comparison holds exactly when the two strings are equal |
| `AvailableNetworks.AvailableNetworkGroupPack.BssNetworks` | ManagedNativeWifi/AvailableNetworkPack.cs:113-114 | returns the stored observations as an immutable sequence, best first: on a valid record it is non-increasing in link quality, its head has the representative link quality, and no observation exceeds it. The group constructor's `BssNetworks() == OrderByLinkQualityDescending(bssNetworks)` fixes its value. |
| `AvailableNetworks.AvailableNetworkPack.IsConnected` | ManagedNativeWifi/AvailableNetworkPack.cs:68-75 | true exactly when the interface currently reports a connection and its profile name equals the record's profile name, case-sensitively. Reads the interface's present state. |
| `AvailableNetworks.IsConnectedFollowsInterface` | ManagedNativeWifi/AvailableNetworkPack.cs:65-75 | the same record changes its answer when the interface switches away from or back to its profile, so the value is not cached |
| `AvailableNetworks.AvailableNetworkPack.constructor` | ManagedNativeWifi/AvailableNetworkPack.cs:80-102 | every field equals the matching argument, with nothing validated |
| `AvailableNetworks.AvailableNetworkGroupPack.constructor` | ManagedNativeWifi/AvailableNetworkPack.cs:139-172 | see the group constructor notes below |

The group constructor's contract states:
- The base fields are passed through unchanged.
- The stored observations are the sorted sequence. That sequence is a permutation of the input and is stable for every quality.
- The invariant `Valid()` holds: the four representative fields are those of the first stored observation. `Valid()` reads only constant fields, so it holds for the record's whole lifetime.
- The array holds the same observations as `BssNetworks()`.
- With an empty input the four representative fields are zero.
- With a non-empty input they are the attributes of the first input observation that has the maximal link quality.

## Left out

- The collaborator types `NetworkIdentifier`, `InterfaceConnectionInfo`, `BssType`, `BssNetworkPack` and `EncryptionType` are not part of this model. Each is reduced to the fields the core reads, or to a stored code when the core reads none.
- The native `DOT11_AUTH_ALGORITHM` enumeration is not part of this model. Only its six recognised codes are named; every other member is the single case `Other`.
- Numeric enumeration values are not modelled. `default(T)` is modelled as the member numbered 0, which is `None` in both enumerations.
- The encryption-type converter (`EncryptionType.cs`) is not part of this model.
- `null` references are not modelled: null strings, null observations and a null interface. The model assumes every string, observation and interface is non-null. A null profile name, which the C# record can hold, is outside the model.
- The `float` band is a `real` that is only copied, so float rounding plays no part.
- `int` fields are unbounded integers. The core only copies and compares them, so 32-bit width cannot matter.
- The 32-byte SSID limit and the 0-100 quality ranges are documented but not checked in the source. They are neither checked nor required here.
- `Array.AsReadOnly` is modelled as exposing a constant sequence holding the array's contents. Dafny cannot stop other code from writing the array itself, but `BssNetworks()` and `Valid()` do not read it, so such writes cannot change what the record exposes.
- .NET strings are sequences of UTF-16 code units, and ordinal comparison and the `switch` on strings compare code units. Dafny strings are sequences of Unicode scalar values, so a string holding an unpaired surrogate cannot be represented in this model.
- Object identity of observations is not modelled. Observations are values, so two with identical fields cannot be told apart. Stability is stated on values.
- LINQ's own sorting algorithm is replaced by an insertion sort. `StableSortIsOrderByLinkQualityDescending` proves that every stable descending sort gives the same result.
- The Windows Native Wifi calls, profile XML reading, scanning and threading are outside this core.
