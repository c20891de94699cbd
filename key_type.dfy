/** Key types of a profile's shared key and their fail-soft token converter. */
module KeyType {
  import opened Wrappers

  /** Unlike `AuthenticationMethod.None`, `None` is documented here as a valid value; it is
      still the default (numbered 0) and no token parses to it. */
  datatype KeyTypes = None | NetworkKey | PassPhrase

  /** `default(KeyTypes)`, the value left in the out parameter on failure. */
  const Default: KeyTypes := None

  /** The profile XML spelling of each key type that has one. */
  function Token(k: KeyTypes): string
    requires k != None
  {
    match k
    case NetworkKey => "networkKey"
    case PassPhrase => "passPhrase"
  }

  /** Classifies a key-type token by exact, case-sensitive comparison. The flag is true
      exactly when the value is NetworkKey or PassPhrase, whose token is then the input;
      otherwise the value is the default. */
  function TryParse(source: string): (r: TryResult<KeyTypes>)
    ensures r.success <==> (r.value == NetworkKey || r.value == PassPhrase)
    ensures r.success ==> r.value != None && Token(r.value) == source
    ensures !r.success ==> r.value == Default
  {
    if source == "networkKey" then TryResult(true, NetworkKey)
    else if source == "passPhrase" then TryResult(true, PassPhrase)
    else TryResult(false, Default)
  }

  /** Both tokens are recognised: with TryParse's contract this pins down the table. */
  lemma ParseRecognisesEveryToken(k: KeyTypes)
    requires k != None
    ensures TryParse(Token(k)) == TryResult(true, k)
  {
  }

  /** The valid value None is still never the result of a successful parse. */
  lemma SuccessNeverGivesNone(s: string)
    ensures TryParse(s).value == None <==> !TryParse(s).success
  {
  }

  /** Tokens are matched case-sensitively. */
  lemma ParseIsCaseSensitive()
    ensures TryParse("NetworkKey") == TryResult(false, None)
    ensures TryParse("PassPhrase") == TryResult(false, None)
    ensures TryParse("None") == TryResult(false, None)
  {
    assert "NetworkKey"[0] != "networkKey"[0];
    assert "PassPhrase"[0] != "passPhrase"[0];
  }
}
