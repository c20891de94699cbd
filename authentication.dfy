/** Authentication methods and the two fail-soft converters that produce them:
    one from native algorithm codes, one from profile XML tokens. */
module Authentication {
  import opened Wrappers
  import opened Collaborators

  /** `None` is the invalid value; it is also the enumeration's default (numbered 0). */
  datatype AuthenticationMethod =
    | None
    | Open
    | Shared
    | WPA_Enterprise
    | WPA_Personal
    | WPA2_Enterprise
    | WPA2_Personal

  /** `default(AuthenticationMethod)`, the value left in the out parameter on failure. */
  const Default: AuthenticationMethod := None

  /** The native code that stands for each valid method (the inverse of the code table). */
  function NativeCode(m: AuthenticationMethod): Dot11AuthAlgorithm
    requires m != None
  {
    match m
    case Open => DOT11_AUTH_ALGO_80211_OPEN
    case Shared => DOT11_AUTH_ALGO_80211_SHARED_KEY
    case WPA_Enterprise => DOT11_AUTH_ALGO_WPA
    case WPA_Personal => DOT11_AUTH_ALGO_WPA_PSK
    case WPA2_Enterprise => DOT11_AUTH_ALGO_RSNA
    case WPA2_Personal => DOT11_AUTH_ALGO_RSNA_PSK
  }

  /** The profile XML spelling of each valid method, as the enumeration's remarks give it. */
  function ProfileToken(m: AuthenticationMethod): string
    requires m != None
  {
    match m
    case Open => "open"
    case Shared => "shared"
    case WPA_Enterprise => "WPA"
    case WPA_Personal => "WPAPSK"
    case WPA2_Enterprise => "WPA2"
    case WPA2_Personal => "WPA2PSK"
  }

  /** Classifies a native code. A recognised code gives a valid method and the native code
      recovered from that method is the input; any other code fails with the default. */
  function TryConvert(source: Dot11AuthAlgorithm): (r: TryResult<AuthenticationMethod>)
    ensures r.success <==> !source.Other?
    ensures r.success <==> r.value != None
    ensures r.success ==> r.value != None && NativeCode(r.value) == source
    ensures !r.success ==> r.value == Default
  {
    match source
    case DOT11_AUTH_ALGO_80211_OPEN => TryResult(true, Open)
    case DOT11_AUTH_ALGO_80211_SHARED_KEY => TryResult(true, Shared)
    case DOT11_AUTH_ALGO_WPA => TryResult(true, WPA_Enterprise)
    case DOT11_AUTH_ALGO_WPA_PSK => TryResult(true, WPA_Personal)
    case DOT11_AUTH_ALGO_RSNA => TryResult(true, WPA2_Enterprise)
    case DOT11_AUTH_ALGO_RSNA_PSK => TryResult(true, WPA2_Personal)
    case Other => TryResult(false, Default)
  }

  /** Classifies a profile token by exact, case-sensitive comparison. A success gives a valid
      method whose canonical token is the input; anything else fails with the default. */
  function TryParse(source: string): (r: TryResult<AuthenticationMethod>)
    ensures r.success <==> r.value != None
    ensures r.success ==> r.value != None && ProfileToken(r.value) == source
    ensures !r.success ==> r.value == Default
  {
    if source == "open" then TryResult(true, Open)
    else if source == "shared" then TryResult(true, Shared)
    else if source == "WPA" then TryResult(true, WPA_Enterprise)
    else if source == "WPAPSK" then TryResult(true, WPA_Personal)
    else if source == "WPA2" then TryResult(true, WPA2_Enterprise)
    else if source == "WPA2PSK" then TryResult(true, WPA2_Personal)
    else TryResult(false, Default)
  }

  /** Every valid method is reached from its native code: together with TryConvert's
      contract this pins down the whole code table. */
  lemma ConvertRecognisesEveryMethod(m: AuthenticationMethod)
    requires m != None
    ensures TryConvert(NativeCode(m)) == TryResult(true, m)
  {
  }

  /** Every valid method is reached from its canonical token: together with TryParse's
      contract this pins down the whole token table. */
  lemma ParseRecognisesEveryMethod(m: AuthenticationMethod)
    requires m != None
    ensures TryParse(ProfileToken(m)) == TryResult(true, m)
  {
  }

  /** Two codes that convert to the same method are the same code. */
  lemma ConvertIsInjective(c1: Dot11AuthAlgorithm, c2: Dot11AuthAlgorithm)
    requires TryConvert(c1).success && TryConvert(c2).success
    requires TryConvert(c1).value == TryConvert(c2).value
    ensures c1 == c2
  {
  }

  /** Two tokens that parse to the same method are the same token. */
  lemma ParseIsInjective(s1: string, s2: string)
    requires TryParse(s1).success && TryParse(s2).success
    requires TryParse(s1).value == TryParse(s2).value
    ensures s1 == s2
  {
  }

  /** Tokens are matched case-sensitively: other spellings of known tokens are rejected. */
  lemma ParseIsCaseSensitive()
    ensures TryParse("Open") == TryResult(false, None)
    ensures TryParse("SHARED") == TryResult(false, None)
    ensures TryParse("wpa2psk") == TryResult(false, None)
    ensures TryParse("") == TryResult(false, None)
  {
    assert "Open"[0] != "open"[0];
  }

  /** The two tables agree: a code and the token of the method it converts to classify alike,
      for example RSNA_PSK and "WPA2PSK" both give WPA2_Personal. */
  lemma CodeAndTokenAgree(c: Dot11AuthAlgorithm)
    requires TryConvert(c).success
    ensures TryParse(ProfileToken(TryConvert(c).value)) == TryConvert(c)
  {
    ParseRecognisesEveryMethod(TryConvert(c).value);
  }

  /** ...and in the other direction: a token and the code of the method it parses to. */
  lemma TokenAndCodeAgree(s: string)
    requires TryParse(s).success
    ensures TryConvert(NativeCode(TryParse(s).value)) == TryParse(s)
  {
    ConvertRecognisesEveryMethod(TryParse(s).value);
  }

  /** Both converters reach exactly the valid methods. */
  lemma ConvertersReachTheSameMethods(m: AuthenticationMethod)
    ensures (exists c :: TryConvert(c) == TryResult(true, m)) <==> m != None
    ensures (exists s :: TryParse(s) == TryResult(true, m)) <==> m != None
  {
    if m != None {
      ConvertRecognisesEveryMethod(m);
      ParseRecognisesEveryMethod(m);
    }
  }
}
