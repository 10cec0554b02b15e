/**
 * The stories grid: the layout helpers of `StoriesView` (card offsets,
 * z-order, rotation), its tap handling and story picking, and
 * `StoriesViewModel.index(_:)`.
 */
module StoriesScreen {
  import opened Wrappers
  import opened Collections
  import opened StoryViewer

  /** A `CGSize`; the offsets used here are whole points. */
  datatype Size = Size(width: int, height: int)

  /** `zIndex(row:)`: `-i`, so higher rows draw over lower ones. */
  function ZIndex(i: int): (z: int)
    ensures z + i == 0
  {
    -i
  }

  /** Row z-order strictly decreases down the grid. */
  lemma ZIndexStrictlyDecreasing(i: int, k: int)
    requires i < k
    ensures ZIndex(k) < ZIndex(i)
  {
  }

  /** `offset(row:column:)`. */
  function Offset(i: int, j: int): (r: Size)
    ensures r.height == 0
    ensures r.width == -10 <==> j == 0 && i != 0
    ensures r.width == 5 <==> i == 0 && j == 2
    ensures r.width == 0 <==> !(j == 0 && i != 0) && !(i == 0 && j == 2)
  {
    if j == 0 && i != 0 then Size(-10, 0)
    else if i == 0 && j == 2 then Size(5, 0)
    else Size(0, 0)
  }

  /** The card at (i, j) is the user's own story card. */
  predicate IsMyStory(i: int, j: int)
  {
    i == 0 && j == 0
  }

  /** The card's rotation in degrees: 0 when `i*3+j` is even, 5 otherwise. */
  function CardRotation(i: int, j: int): (deg: int)
    ensures deg == 0 || deg == 5
    ensures deg == 0 <==> (i * 3 + j) % 2 == 0
  {
    if (i * 3 + j) % 2 == 0 then 0 else 5
  }

  /** Along a row the rotation alternates, since `i*3+j` steps by one. */
  lemma CardRotationAlternates(i: int, j: int)
    ensures CardRotation(i, j) != CardRotation(i, j + 1)
  {
  }

  /** The result of the image picker. */
  datatype PickResult<Image> = Picked(image: Image) | PickFailed

  /** The "Your Story Options" action sheet; "View Story" may be disabled. */
  datatype StoryOptionsSheet = StoryOptionsSheet(viewStoryEnabled: bool)

  /** The state of `StoriesView` that its handlers change. */
  class StoriesView<Image> {
    var userStories: seq<Image>
    var showsUserProfile: bool
    var storyOptions: Option<StoryOptionsSheet>
    var presentedStory: MyStoryViewModel?<Image>

    constructor ()
      ensures userStories == [] && !showsUserProfile
      ensures storyOptions == None && presentedStory == null
    {
      userStories := [];
      showsUserProfile := false;
      storyOptions := None;
      presentedStory := null;
    }

    /** `showStory()`: activates the navigation link to the story viewer. */
    method ShowStory()
      modifies this
      ensures showsUserProfile
      ensures userStories == old(userStories) && storyOptions == old(storyOptions)
      ensures presentedStory == old(presentedStory)
    {
      showsUserProfile := true;
    }

    /** `showStoryPicker()`: "View Story" is enabled iff the user has picked a story. */
    method ShowStoryPicker()
      modifies this
      ensures storyOptions == Some(StoryOptionsSheet(|userStories| > 0))
      ensures userStories == old(userStories) && showsUserProfile == old(showsUserProfile)
      ensures presentedStory == old(presentedStory)
    {
      storyOptions := Some(StoryOptionsSheet(|userStories| != 0));
    }

    /** `handleTap(_:_:)`: cell (0,0) opens the options sheet, every other cell a story. */
    method HandleTap(i: int, j: int)
      modifies this
      ensures userStories == old(userStories) && presentedStory == old(presentedStory)
      ensures IsMyStory(i, j) ==>
        storyOptions == Some(StoryOptionsSheet(|userStories| > 0)) &&
        showsUserProfile == old(showsUserProfile)
      ensures !IsMyStory(i, j) ==> showsUserProfile && storyOptions == old(storyOptions)
    {
      if i == 0 && j == 0 {
        ShowStoryPicker();
      } else {
        ShowStory();
      }
    }

    /** `showMyStory(lastPick:)`: presents a `MyStoryViewModel` over the picked images. */
    method ShowMyStory(lastPick: bool)
      modifies this
      ensures presentedStory != null && fresh(presentedStory)
      ensures presentedStory.stories == []
      ensures presentedStory.currentStoryIndex == if lastPick then -1 else 0
      ensures userStories == old(userStories) && showsUserProfile == old(showsUserProfile)
      ensures storyOptions == old(storyOptions)
    {
      presentedStory := new MyStoryViewModel(userStories, lastPick);
    }

    /**
     * `pickStory()`'s completion: a picked image is appended and the viewer is
     * presented on the last pick; a failed pick changes nothing.
     */
    method PickStory(result: PickResult<Image>)
      modifies this
      ensures result.PickFailed? ==>
        userStories == old(userStories) && presentedStory == old(presentedStory)
      ensures result.Picked? ==>
        userStories == old(userStories) + [result.image] &&
        presentedStory != null && fresh(presentedStory) &&
        presentedStory.currentStoryIndex == -1
      ensures showsUserProfile == old(showsUserProfile) && storyOptions == old(storyOptions)
    {
      if result.PickFailed? {
        return;
      }
      userStories := userStories + [result.image];
      ShowMyStory(true);
    }
  }

  /** `StoriesViewModel`: a list of 100 placeholder identifiers. */
  class StoriesViewModel {
    var messages: seq<string>

    /** The 100 identifiers are random UUIDs in the source; here they are given. */
    constructor (uuids: seq<string>)
      requires |uuids| == 100
      ensures messages == uuids && |messages| == 100
    {
      messages := uuids;
    }

    /** `index(_:)`: force-unwraps `firstIndex(of:)`, so the element must be present. */
    function Index(element: string): (p: nat)
      reads this
      requires element in messages
      ensures p < |messages| && messages[p] == element
      ensures forall k :: 0 <= k < p ==> messages[k] != element
    {
      FirstIndexOf(messages, element).value
    }
  }
}
