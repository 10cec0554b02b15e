/**
 * The story viewer's index machine (`StoryViewModeled` and its default
 * extension) and `MyStoryViewModel`, the viewer opened on the user's own
 * stories. `currentStoryIndex` is a plain `Int`: nothing in the source keeps
 * it inside `stories`, and `MyStoryViewModel` really sets it to -1.
 */
module StoryViewer {
  import opened Models

  /** `canTapNext` for an index and a story count. */
  predicate CanTapNext(index: int, count: nat)
  {
    index < count - 1
  }

  /** With no stories, no index from -1 upwards permits advancing. */
  lemma EmptyStoriesNeverAdvance(index: int)
    requires index >= -1
    ensures !CanTapNext(index, 0)
  {
  }

  /** A guarded advance from an index inside the list stays inside it. */
  lemma GuardedAdvanceStaysInRange(index: int, count: nat)
    requires 0 <= index < count && CanTapNext(index, count)
    ensures 0 <= index + 1 < count
  {
  }

  /**
   * The number of advances the viewer performs from `index` when the user
   * keeps tapping: one `showNext` per tap while `canTapNext` holds.
   */
  function GuardedAdvances(index: int, count: nat): nat
    decreases count - index
  {
    if CanTapNext(index, count) then 1 + GuardedAdvances(index + 1, count) else 0
  }

  /**
   * From index `i` inside the list, exactly `count - 1 - i` guarded advances
   * reach the last story, and there `canTapNext` is false.
   */
  lemma {:induction false} GuardedAdvancesReachLastStory(i: int, count: nat)
    requires 0 <= i < count
    ensures GuardedAdvances(i, count) == count - 1 - i
    ensures !CanTapNext(i + GuardedAdvances(i, count), count)
    decreases count - i
  {
    if CanTapNext(i, count) {
      GuardedAdvancesReachLastStory(i + 1, count);
    }
  }

  /** `MyStoryViewModel`: a `StoryViewModeled` built from the user's picked images. */
  class MyStoryViewModel<Image> {
    var currentStoryIndex: int
    var storyMessage: string
    var stories: seq<Story>
    const canSendMessages: bool
    const canReport: bool

    /**
     * `init(_:isLastPick:)`: the images are ignored and `stories` is empty;
     * "last pick" puts the index on `stories.endIndex - 1`, which is -1.
     */
    constructor (images: seq<Image>, isLastPick: bool)
      ensures stories == []
      ensures currentStoryIndex == if isLastPick then -1 else 0
      ensures storyMessage == ""
      ensures !canSendMessages && !canReport
      ensures !CanTapNextNow()
    {
      currentStoryIndex := 0;
      storyMessage := "";
      canSendMessages := false;
      canReport := false;
      stories := [];
      new;
      if isLastPick {
        currentStoryIndex := |stories| - 1;
      }
    }

    /** `canTapNext`. */
    predicate CanTapNextNow()
      reads this
    {
      CanTapNext(currentStoryIndex, |stories|)
    }

    /** The default `showNext()`: one step forward, nothing else changes. */
    method ShowNext()
      modifies this
      ensures currentStoryIndex == old(currentStoryIndex) + 1
      ensures stories == old(stories) && storyMessage == old(storyMessage)
      ensures old(CanTapNextNow()) && 0 <= old(currentStoryIndex) ==>
        0 <= currentStoryIndex < |stories|
    {
      currentStoryIndex := currentStoryIndex + 1;
    }

    /** The default `blockUser()`: does nothing. */
    method BlockUser()
      ensures currentStoryIndex == old(currentStoryIndex)
      ensures stories == old(stories) && storyMessage == old(storyMessage)
    {
    }

    /** The default `reportProfile()`: does nothing. */
    method ReportProfile()
      ensures currentStoryIndex == old(currentStoryIndex)
      ensures stories == old(stories) && storyMessage == old(storyMessage)
    {
    }
  }
}
