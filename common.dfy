/**
 * `Common`: the process-wide current user, the normalisation of server
 * error messages, and the gender-to-code mapping sent to the server.
 */
module Common {
  import opened Wrappers
  import opened Models
  import opened StringExt
  import opened DiscoverySettings

  /** The global `_user` slot behind `setUserInfo` / `userInfo`. */
  class UserStore {
    var user: Option<User>

    /** The slot starts empty, as a Swift global optional does. */
    constructor ()
      ensures user == None
    {
      user := None;
    }

    /** `setUserInfo(_:)`. */
    method SetUserInfo(u: User)
      modifies this
      ensures user == Some(u)
      ensures UserInfo() == u
    {
      user := Some(u);
    }

    /** `userInfo()`: force-unwraps the slot, so a prior `setUserInfo` is required. */
    function UserInfo(): (u: User)
      reads this
      requires user.Some?
      ensures user == Some(u)
    {
      user.value
    }
  }

  const CityTrigger: string := "Reg city"
  const CountryTrigger: string := "Reg country"
  const CityMessage: string := "The City field required"
  const CountryMessage: string := "The Country field required"

  /** `handleErrorMessage(_:)`: the city check wins over the country check. */
  function HandleErrorMessage(message: string): (r: string)
    ensures Contains(message, CityTrigger) ==> r == CityMessage
    ensures !Contains(message, CityTrigger) && Contains(message, CountryTrigger) ==> r == CountryMessage
    ensures !Contains(message, CityTrigger) && !Contains(message, CountryTrigger) ==> r == message
  {
    if Contains(message, CityTrigger) then CityMessage
    else if Contains(message, CountryTrigger) then CountryMessage
    else message
  }

  /** Neither fixed text contains a trigger, since neither contains a capital R. */
  lemma FixedTextsContainNoTrigger()
    ensures !Contains(CityMessage, CityTrigger) && !Contains(CityMessage, CountryTrigger)
    ensures !Contains(CountryMessage, CityTrigger) && !Contains(CountryMessage, CountryTrigger)
  {
    assert 'R' !in CityMessage;
    assert 'R' !in CountryMessage;
    NotContainsWithoutFirstChar(CityMessage, CityTrigger);
    NotContainsWithoutFirstChar(CityMessage, CountryTrigger);
    NotContainsWithoutFirstChar(CountryMessage, CityTrigger);
    NotContainsWithoutFirstChar(CountryMessage, CountryTrigger);
  }

  /** Normalising a normalised message changes nothing. */
  lemma HandleErrorMessageIdempotent(message: string)
    ensures HandleErrorMessage(HandleErrorMessage(message)) == HandleErrorMessage(message)
  {
    FixedTextsContainNoTrigger();
  }

  /** `getGenderIntValue(_:)`: a case-sensitive match against the raw values. */
  function GetGenderIntValue(gender: string): (code: string)
    ensures code in {"0", "1", "2", "3"}
  {
    if gender == RawValue(Male) then "0"
    else if gender == RawValue(Female) then "1"
    else if gender == RawValue(Lesbian) then "2"
    else if gender == RawValue(Gay) then "3"
    else "0"
  }

  /** The code of a gender's raw value is its position in `allCases`. */
  lemma GenderCodeIsCaseIndex(k: nat)
    requires k < |AllCases|
    ensures GetGenderIntValue(RawValue(AllCases[k])) == [('0' as int + k) as char]
  {
  }

  /**
   * Only the four raw values get a non-zero code; anything else, including a
   * capitalised title such as "Female", gets "0".
   */
  lemma GenderCodeDefault(gender: string)
    requires forall g: Gender :: gender != RawValue(g)
    ensures GetGenderIntValue(gender) == "0"
  {
  }

  /** A title other than "Male" does not get its own code: titles are not raw values. */
  lemma TitlesMapToZero(g: Gender)
    ensures GetGenderIntValue(Title(g)) == "0"
  {
    TitleCapitalizesRawValue(g);
  }
}
