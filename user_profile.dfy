/**
 * `UserProfileViewModel.init(user:)`: the labels and defaults shown on a
 * profile, the photo URLs and the set of "unlocked photo" markers.
 */
module UserProfile {
  import opened Wrappers
  import opened Models
  import opened SwiftInt
  import opened Common

  /** The "looking for" label: `Int(looking ?? "1")` switched over 0, 1, 2. */
  function LookingForLabel(looking: Option<string>): (text: string)
    ensures text in {"Male", "Female", "Guy"}
  {
    match ParseInt(looking.GetOr("1"))
    case Some(0) => "Male"
    case Some(1) => "Female"
    case Some(2) => "Guy"
    case _ => "Male"
  }

  /** The codes "0", "1", "2" map to "Male", "Female", "Guy"; a missing value to "Female". */
  lemma LookingForCodes()
    ensures LookingForLabel(Some("0")) == "Male"
    ensures LookingForLabel(Some("1")) == "Female"
    ensures LookingForLabel(Some("2")) == "Guy"
    ensures LookingForLabel(None) == "Female"
  {
    ParseSingleDigit('0');
    ParseSingleDigit('1');
    ParseSingleDigit('2');
  }

  /** Anything that does not parse as an integer falls back to "Male". */
  lemma LookingForUnparsable(looking: string)
    requires ParseInt(looking).None?
    ensures LookingForLabel(Some(looking)) == "Male"
  {
  }

  /** Any integer other than 0, 1, 2 falls back to "Male". */
  lemma LookingForOtherInteger(looking: string)
    requires ParseInt(looking).Some? && ParseInt(looking).value !in {0, 1, 2}
    ensures LookingForLabel(Some(looking)) == "Male"
  {
  }

  /** `Int` accepts leading zeros, so "01" is read as 1 and labelled "Female". */
  lemma LookingForLeadingZero()
    ensures LookingForLabel(Some("01")) == "Female"
  {
    LeadingZeroIgnored("1");
    assert "0" + "1" == "01";
    assert DigitsValue("1") == 1 by { assert "1"[..0] == ""; }
    var text := "01";
    assert text[0..] == text;
    assert AllDigits(text);
    assert ParseInt(text) == Some(DigitsValue(text));
  }

  /**
   * The two loops of `init`: one `1` marker per empty slot (9 slots in all,
   * so `0 ..< 9 - count` traps above 9 photos) and, per photo, its URL and a
   * `0` marker.
   */
  method BuildPhotos(photos: seq<Photo>) returns (photoUrls: seq<string>, unlockedPhotos: set<int>)
    requires |photos| <= 9
    ensures |photoUrls| == |photos|
    ensures forall k :: 0 <= k < |photos| ==> photoUrls[k] == photos[k].photo
    ensures unlockedPhotos <= {0, 1}
    ensures 1 in unlockedPhotos <==> |photos| <= 8
    ensures 0 in unlockedPhotos <==> |photos| >= 1
  {
    photoUrls, unlockedPhotos := [], {};
    var photoCount := |photos|;
    var emptyCount := 8 - photoCount + 1;
    for n := 0 to emptyCount
      invariant unlockedPhotos == if n == 0 then {} else {1}
    {
      unlockedPhotos := unlockedPhotos + {1};
    }
    ghost var afterEmpty := unlockedPhotos;
    for index := 0 to photoCount
      invariant |photoUrls| == index
      invariant forall k :: 0 <= k < index ==> photoUrls[k] == photos[k].photo
      invariant unlockedPhotos == if index == 0 then afterEmpty else afterEmpty + {0}
    {
      photoUrls := photoUrls + [photos[index].photo];
      unlockedPhotos := unlockedPhotos + {0};
    }
  }

  class UserProfileViewModel {
    var photoUrls: seq<string>
    var unlockedPhotos: set<int>
    var name: string
    var address: string
    var bio: string
    var lookfor: string
    var herefor: string
    var gender: string

    /**
     * `init(user:)`: a nil user means the stored current user (which must
     * then exist, as `userInfo()` force-unwraps it).
     */
    constructor (user: Option<User>, store: UserStore)
      requires user.Some? || store.user.Some?
      requires |(if user.Some? then user.value else store.user.value).photos.GetOr([])| <= 9
      ensures var info := if user.Some? then user.value else store.user.value;
        name == info.name.GetOr("Jane") &&
        address == info.address.GetOr("London, UK") &&
        bio == info.bio.GetOr("I'm Jain, is 20 years old.") &&
        lookfor == LookingForLabel(info.looking) &&
        herefor == info.hereFor.GetOr("1") &&
        gender == info.gender.GetOr("0")
      ensures var photos := (if user.Some? then user.value else store.user.value).photos.GetOr([]);
        |photoUrls| == |photos| &&
        (forall k :: 0 <= k < |photos| ==> photoUrls[k] == photos[k].photo) &&
        unlockedPhotos <= {0, 1} &&
        (1 in unlockedPhotos <==> |photos| <= 8) &&
        (0 in unlockedPhotos <==> |photos| >= 1)
    {
      var userInfo := if user.None? then store.UserInfo() else user.value;
      name := userInfo.name.GetOr("Jane");
      address := userInfo.address.GetOr("London, UK");
      bio := userInfo.bio.GetOr("I'm Jain, is 20 years old.");
      lookfor := LookingForLabel(userInfo.looking);
      herefor := userInfo.hereFor.GetOr("1");
      gender := userInfo.gender.GetOr("0");
      var urls, unlocked := BuildPhotos(userInfo.photos.GetOr([]));
      photoUrls := urls;
      unlockedPhotos := unlocked;
    }
  }
}
