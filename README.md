# Hush-SwiftUI: the deterministic core, modelled in Dafny

Hush is a dating app for iOS written in SwiftUI. Most of it is made of screens
and network glue. This project models the parts that decide something:

- The story viewer's index machine (`StoryViewModeled`, `MyStoryViewModel`).
- How `StoryAPI` turns a decoded server response into stories or an
  `APIError`.
- The stories grid of `StoriesView` and `StoriesViewModel.index(_:)`.
- The list loaders of `MatchViewModel` and the grid rules of `MatchView`.
- The in-memory conversation storage, with search and delete.
- The message-date and bubble rules of `MessageDetailView`, and the message
  filter titles.
- Building a user profile (`UserProfileViewModel.init(user:)`).
- The helpers in `Common`: the current user, error-message normalisation and
  the gender code.
- The `Gender` enumeration of the discovery settings and the `String`
  extension.
- The login completion of `LoginWithEmailViewModel`.
- The picker coordinators of `PickerTextField` and `DateTextField`.
- The discrete helpers of `ARFaceDetectorView`: choosing the capture format,
  the EXIF orientation, the mask insets, and one refresh of the face-tracking
  requests.

The model follows the form of the Swift code:

- Objects whose fields are updated in place are Dafny classes with
  `modifies` clauses. These are the view-models, `FakeStorage`, the picker
  coordinators and the global user slot of `Common`.
- Switches and expressions are functions.
- Loops are methods whose loop invariants prove them against a specification
  function. These are the story decoding loop, the match-list refill, the
  photo loops of the profile, the 420-format search and the tracking refresh.

These parts of Swift's semantics, where they differ from Dafny's, are written
out (module `SwiftInt` and the helpers beside it); the differences not
modelled are listed under "## Left out":

- `%` truncates toward zero.
- `Int(String)` accepts an optional sign and leading zeros, so "01" parses as
  1, and it rejects values outside 64 bits.
- SwiftyJSON's `intValue` and `stringValue` default to 0 and "".
- `stride(from:through:by:)` is a list.
- `replacingOccurrences` replaces left to right without overlap.

Quirks of the code are modelled as written, not as one might expect:

- `MyStoryViewModel` ignores the images it is given, so its story list is
  always empty. On a "last pick" its index is -1.
- `view_story` treats a missing `error` field as a rejection with code 0.
- An image message is always drawn as the current user's.
- `getGenderIntValue` maps the capitalised titles ("Female", …) to "0".

Modules: `Wrappers` (Option), `Models` (the shared records), `StringExt`,
`SwiftInt`, `Collections`, `DiscoverySettings`, `Common`, `StoryViewer`,
`StoryApi`, `StoriesScreen`, `MatchScreen`, `Messages`, `UserProfile`,
`LoginWithEmail`, `Picker`, `FaceDetector`.

## Model

| member | source | states |
|---|---|---|
| StringExt.Contains | Hush-SwiftUI/Hush-SwiftUI/Services/Common.swift:35-37 | Swift's `s.contains(sub)`: some position of `s` starts a copy of `sub`, compared character by character; its uses are stated by `HandleErrorMessage` and `SearchMembership` |
| StringExt.ReplaceEntities | Hush-SwiftUI/Hush-SwiftUI/Extensions/String+Ext.swift:14 | replacing "&#039;" by "'" never makes the string longer |
| StringExt.ParseSpecialTextRemovesEntities | Hush-SwiftUI/Hush-SwiftUI/Extensions/String+Ext.swift:13-15 | the result of `parseSpecialText` contains no "&#039;" |
| StringExt.ParseSpecialTextKeepsPlainText | Hush-SwiftUI/Hush-SwiftUI/Extensions/String+Ext.swift:13-15 | a string without "&#039;" is returned unchanged |
| StringExt.ParseSpecialText | Hush-SwiftUI/Hush-SwiftUI/Extensions/String+Ext.swift:13-15 | `replacingOccurrences(of: "&#039;", with: "'")`; its result is given by `ParseSpecialTextRemovesEntities`, `ParseSpecialTextKeepsPlainText` and `ParseSpecialTextOfEntity` |
| StringExt.ParseSpecialTextIdempotent | Hush-SwiftUI/Hush-SwiftUI/Extensions/String+Ext.swift:13-15 | applying `parseSpecialText` twice is applying it once |
| StringExt.ParseSpecialTextOfEntity | Hush-SwiftUI/Hush-SwiftUI/Extensions/String+Ext.swift:14 | the first entity after an entity-free prefix becomes exactly one apostrophe at its place, and the rest is processed on its own |
| StringExt.ParseSpecialTextAfterStrayAmpersand | Hush-SwiftUI/Hush-SwiftUI/Extensions/String+Ext.swift:14 | a stray `&` before an entity, as in "AT&T ", is kept and the entity still becomes one apostrophe |
| StringExt.CapitalizingFirstLetter | Hush-SwiftUI/Hush-SwiftUI/Extensions/String+Ext.swift:17-19 | the length is kept, "" stays "", the first character is upper-cased and all later characters are unchanged |
| StringExt.CapitalizingFirstLetterIdempotent | Hush-SwiftUI/Hush-SwiftUI/Extensions/String+Ext.swift:17-19 | capitalising twice is capitalising once |
| StringExt.CapitalizeFirstLetter | Hush-SwiftUI/Hush-SwiftUI/Extensions/String+Ext.swift:21-23 | the mutating form leaves the string equal to `capitalizingFirstLetter()` of the old one; a leading lower-case letter becomes upper-case |
| StringExt.Capitalized | Hush-SwiftUI/Hush-SwiftUI/Modules/Discovery/Settings/DiscoveriesSettingsViewModeled.swift:18 | `capitalized`: same length, the first letter of each word upper-cased, every other letter lower-cased |
| StringExt.CapitalizedOfLowercaseWord | Hush-SwiftUI/Hush-SwiftUI/Modules/Discovery/Settings/DiscoveriesSettingsViewModeled.swift:18 | on one lower-case word, `capitalized` agrees with `capitalizingFirstLetter` |
| DiscoverySettings.AllTitles | Hush-SwiftUI/Hush-SwiftUI/Modules/Discovery/Settings/DiscoveriesSettingsViewModeled.swift:19 | `allTitles` has one title per case, in `allCases` order |
| DiscoverySettings.AllCasesListsEachCaseOnce | Hush-SwiftUI/Hush-SwiftUI/Modules/Discovery/Settings/DiscoveriesSettingsViewModeled.swift:11-16 | every case is in `allCases` and no case is listed twice |
| DiscoverySettings.RawValue | Hush-SwiftUI/Hush-SwiftUI/Modules/Discovery/Settings/DiscoveriesSettingsViewModeled.swift:11-15 | the raw value is the case name; characterised by `RawValueIsLowercaseWord` and `RawValuesDistinct` |
| DiscoverySettings.Title | Hush-SwiftUI/Hush-SwiftUI/Modules/Discovery/Settings/DiscoveriesSettingsViewModeled.swift:18 | `rawValue.capitalized`; characterised by `TitleCapitalizesRawValue` and `TitlesDistinct` |
| DiscoverySettings.RawValueIsLowercaseWord | Hush-SwiftUI/Hush-SwiftUI/Modules/Discovery/Settings/DiscoveriesSettingsViewModeled.swift:11-15 | each raw value is a non-empty lower-case word (the case name) |
| DiscoverySettings.RawValuesDistinct | Hush-SwiftUI/Hush-SwiftUI/Modules/Discovery/Settings/DiscoveriesSettingsViewModeled.swift:11-15 | two cases have the same raw value iff they are the same case |
| DiscoverySettings.TitleCapitalizesRawValue | Hush-SwiftUI/Hush-SwiftUI/Modules/Discovery/Settings/DiscoveriesSettingsViewModeled.swift:18 | the title is the raw value with its first letter upper-cased: "Male", "Female", "Lesbian", "Gay" |
| DiscoverySettings.TitlesDistinct | Hush-SwiftUI/Hush-SwiftUI/Modules/Discovery/Settings/DiscoveriesSettingsViewModeled.swift:18-19 | two cases have the same title iff they are the same case |
| DiscoverySettings.AllTitlesValue | Hush-SwiftUI/Hush-SwiftUI/Modules/Discovery/Settings/DiscoveriesSettingsViewModeled.swift:19 | `allTitles` is ["Male", "Female", "Lesbian", "Gay"] |
| Common.UserStore.constructor | Hush-SwiftUI/Hush-SwiftUI/Services/Common.swift:12 | the global user slot starts empty |
| Common.UserStore.SetUserInfo | Hush-SwiftUI/Hush-SwiftUI/Services/Common.swift:17-19 | after `setUserInfo(u)`, `userInfo()` returns `u` |
| Common.UserStore.UserInfo | Hush-SwiftUI/Hush-SwiftUI/Services/Common.swift:21-23 | `userInfo()` needs a stored user (force unwrap) and returns it |
| Common.HandleErrorMessage | Hush-SwiftUI/Hush-SwiftUI/Services/Common.swift:33-44 | a message containing "Reg city" becomes the city text even if it also contains "Reg country"; otherwise "Reg country" gives the country text; any other message is returned unchanged |
| Common.FixedTextsContainNoTrigger | Hush-SwiftUI/Hush-SwiftUI/Services/Common.swift:35-38 | neither fixed text contains "Reg city" or "Reg country" |
| Common.HandleErrorMessageIdempotent | Hush-SwiftUI/Hush-SwiftUI/Services/Common.swift:33-44 | normalising an already normalised message changes nothing |
| Common.GetGenderIntValue | Hush-SwiftUI/Hush-SwiftUI/Services/Common.swift:46-65 | the code is always one of "0", "1", "2", "3" |
| Common.GenderCodeIsCaseIndex | Hush-SwiftUI/Hush-SwiftUI/Services/Common.swift:48-60 | the raw value of the k-th case of `allCases` maps to the digit k |
| Common.GenderCodeDefault | Hush-SwiftUI/Hush-SwiftUI/Services/Common.swift:61-62 | a string that is no raw value maps to "0" |
| Common.TitlesMapToZero | Hush-SwiftUI/Hush-SwiftUI/Services/Common.swift:46-65 | the matching is case-sensitive, so every capitalised title maps to "0" |
| Collections.FirstIndexOf | Hush-SwiftUI/Hush-SwiftUI/Modules/Story/Stories/StoriesViewModel.swift:22 | `firstIndex(of:)`: nil iff the element is absent; otherwise a position holding it with no earlier position holding it |
| Collections.FirstIndexOfElement | Hush-SwiftUI/Hush-SwiftUI/Modules/Messages/MessageDetail/MessageDetailView.swift:115 | an element at position k has a first index, and it is at most k |
| Collections.FirstIndexOfDistinct | Hush-SwiftUI/Hush-SwiftUI/Modules/Messages/MessageDetail/MessageDetailView.swift:115 | in a list without repeats, the first index of the element at k is k |
| SwiftInt.Rem | Hush-SwiftUI/Hush-SwiftUI/Modules/Match/MatchView.swift:163 | Swift's `%` for a positive divisor: the result is smaller than the divisor in size, agrees with Dafny's `%` for a non-negative dividend, and is never positive for a negative one |
| SwiftInt.ParseInt | Hush-SwiftUI/Hush-SwiftUI/Modules/Profile/UserProfile/UserProfileViewModel.swift:43 | `Int(String)` only yields values in the 64-bit range |
| SwiftInt.ParseUnsigned | Hush-SwiftUI/Hush-SwiftUI/Modules/Profile/UserProfile/UserProfileViewModel.swift:43 | a non-empty digit string, bare or after `+`, parses to its decimal value when that is at most `Int.max` |
| SwiftInt.ParseNegative | Hush-SwiftUI/Hush-SwiftUI/Modules/Profile/UserProfile/UserProfileViewModel.swift:43 | `-` followed by a non-empty digit string parses to the negated value when that is at least `Int.min` |
| SwiftInt.ParseOverflow | Hush-SwiftUI/Hush-SwiftUI/Modules/Profile/UserProfile/UserProfileViewModel.swift:43 | a digit string, bare or after `+`, whose value exceeds `Int.max` gives nil |
| SwiftInt.ParseNegativeOverflow | Hush-SwiftUI/Hush-SwiftUI/Modules/Profile/UserProfile/UserProfileViewModel.swift:43 | `-` followed by a digit string whose negated value is below `Int.min` gives nil |
| SwiftInt.ParseRejects | Hush-SwiftUI/Hush-SwiftUI/Modules/Profile/UserProfile/UserProfileViewModel.swift:43 | "", "+" and "-" give nil, and so does any text with a character that is neither a digit nor a leading sign |
| SwiftInt.ParseSingleDigit | Hush-SwiftUI/Hush-SwiftUI/Modules/Profile/UserProfile/UserProfileViewModel.swift:43 | a single digit parses to its own value |
| SwiftInt.LeadingZeroIgnored | Hush-SwiftUI/Hush-SwiftUI/Modules/Profile/UserProfile/UserProfileViewModel.swift:43 | a leading zero does not change the value of a digit string |
| StoryViewer.CanTapNext | Hush-SwiftUI/Hush-SwiftUI/Modules/Story/Story/StoryViewModeled.swift:29-31 | `currentStoryIndex < stories.count - 1`; characterised by `EmptyStoriesNeverAdvance`, `GuardedAdvanceStaysInRange` and `GuardedAdvancesReachLastStory` |
| StoryViewer.EmptyStoriesNeverAdvance | Hush-SwiftUI/Hush-SwiftUI/Modules/Story/Story/StoryViewModeled.swift:29-31 | with no stories, `canTapNext` is false for every index from -1 up |
| StoryViewer.GuardedAdvanceStaysInRange | Hush-SwiftUI/Hush-SwiftUI/Modules/Story/Story/StoryViewModeled.swift:29-35 | an advance taken while `canTapNext` holds, from an index inside the list, stays inside the list |
| StoryViewer.GuardedAdvances | Hush-SwiftUI/Hush-SwiftUI/Modules/Story/Story/StoryViewModeled.swift:29-35 | how many times `showNext` runs when it is repeated only while `canTapNext` holds; characterised by `GuardedAdvancesReachLastStory` |
| StoryViewer.GuardedAdvancesReachLastStory | Hush-SwiftUI/Hush-SwiftUI/Modules/Story/Story/StoryViewModeled.swift:29-35 | from index i inside the list, exactly count-1-i guarded advances happen, and afterwards `canTapNext` is false |
| StoryViewer.MyStoryViewModel.constructor | Hush-SwiftUI/Hush-SwiftUI/Modules/Story/Story/MyStoryViewModel.swift:11-23 | `stories` is empty whatever images are passed; the index is 0, or -1 on a last pick; `storyMessage` is ""; messages and reports are disabled; `canTapNext` is false |
| StoryViewer.MyStoryViewModel.CanTapNextNow | Hush-SwiftUI/Hush-SwiftUI/Modules/Story/Story/StoryViewModeled.swift:29-31 | the default `canTapNext` on the view-model's own index and stories, i.e. `CanTapNext` of them |
| StoryViewer.MyStoryViewModel.ShowNext | Hush-SwiftUI/Hush-SwiftUI/Modules/Story/Story/StoryViewModeled.swift:33-35 | the index grows by exactly one; `stories` and `storyMessage` are unchanged; a guarded advance from inside the list stays inside it |
| StoryViewer.MyStoryViewModel.BlockUser | Hush-SwiftUI/Hush-SwiftUI/Modules/Story/Story/StoryViewModeled.swift:39 | the default `blockUser` changes no state |
| StoryViewer.MyStoryViewModel.ReportProfile | Hush-SwiftUI/Hush-SwiftUI/Modules/Story/Story/StoryViewModeled.swift:40 | the default `reportProfile` changes no state |
| StoryApi.CollectStories | Hush-SwiftUI/Hush-SwiftUI/API/StoryAPI.swift:41-49 | the decoded list has the response's stories in order, each with `liked` forced to false |
| StoryApi.UploadStory | Hush-SwiftUI/Hush-SwiftUI/API/StoryAPI.swift:28-60 | no data: no completion. Transport failure: nil list and APIError(404, "Server Connection Failed"). `story` > 0: all stories, in order and unliked, with no error. Otherwise an empty list with APIError(error, error_m) |
| StoryApi.ViewStory | Hush-SwiftUI/Hush-SwiftUI/API/StoryAPI.swift:71-102 | as `UploadStory`, except that success needs an `error` field that is present and equal to 0 |
| StoryApi.IntValue | Hush-SwiftUI/Hush-SwiftUI/API/StoryAPI.swift:51 | SwiftyJSON's `intValue`: the number, or 0 when the field is absent |
| StoryApi.StringValue | Hush-SwiftUI/Hush-SwiftUI/API/StoryAPI.swift:51 | SwiftyJSON's `stringValue`: the string, or "" when the field is absent |
| StoryApi.RejectionOf | Hush-SwiftUI/Hush-SwiftUI/API/StoryAPI.swift:51 | `APIError(error.intValue, error_m.stringValue)`, absent fields read as 0 and ""; its use is stated by `UploadStory`, `ViewStory` and `ViewStoryMissingErrorIsRejection` |
| StoryApi.UploadAccepted | Hush-SwiftUI/Hush-SwiftUI/API/StoryAPI.swift:38 | `story.intValue > 0`; contrasted with `ViewAccepted` by `AcceptanceRulesDiffer` |
| StoryApi.ViewAccepted | Hush-SwiftUI/Hush-SwiftUI/API/StoryAPI.swift:80 | `error.int == 0`, so a missing field is a rejection; stated by `ViewStoryMissingErrorIsRejection` and `AcceptanceRulesDiffer` |
| StoryApi.ViewStoryMissingErrorIsRejection | Hush-SwiftUI/Hush-SwiftUI/API/StoryAPI.swift:80-93 | a missing `error` field is a rejection, reported with code 0 |
| StoryApi.AcceptanceRulesDiffer | Hush-SwiftUI/Hush-SwiftUI/API/StoryAPI.swift:38-80 | the two endpoints accept different bodies: one body is accepted only by upload, another only by view |
| StoriesScreen.ZIndex | Hush-SwiftUI/Hush-SwiftUI/Modules/Story/Stories/StoriesView.swift:88-90 | `zIndex(row: i)` is -i |
| StoriesScreen.ZIndexStrictlyDecreasing | Hush-SwiftUI/Hush-SwiftUI/Modules/Story/Stories/StoriesView.swift:88-90 | the z-index strictly decreases down the rows |
| StoriesScreen.Offset | Hush-SwiftUI/Hush-SwiftUI/Modules/Story/Stories/StoriesView.swift:92-104 | the height is 0; x is -10 iff j = 0 and i ≠ 0, 5 iff (i, j) = (0, 2), and 0 otherwise |
| StoriesScreen.CardRotation | Hush-SwiftUI/Hush-SwiftUI/Modules/Story/Stories/StoriesView.swift:66 | the rotation is 0 or 5 degrees, and 0 iff i*3+j is even |
| StoriesScreen.CardRotationAlternates | Hush-SwiftUI/Hush-SwiftUI/Modules/Story/Stories/StoriesView.swift:64-66 | neighbouring cards of a row have different rotations |
| StoriesScreen.StoriesView.constructor | Hush-SwiftUI/Hush-SwiftUI/Modules/Story/Stories/StoriesView.swift:42-46 | no picked stories, no profile shown, no sheet and no viewer presented |
| StoriesScreen.StoriesView.ShowStory | Hush-SwiftUI/Hush-SwiftUI/Modules/Story/Stories/StoriesView.swift:114-115 | `showsUserProfile` becomes true and nothing else changes |
| StoriesScreen.StoriesView.ShowStoryPicker | Hush-SwiftUI/Hush-SwiftUI/Modules/Story/Stories/StoriesView.swift:128-140 | the options sheet is shown, with "View Story" enabled iff `userStories` is non-empty |
| StoriesScreen.IsMyStory | Hush-SwiftUI/Hush-SwiftUI/Modules/Story/Stories/StoriesView.swift:106-112 | cell (0,0) is the user's own story card; its use is stated by `HandleTap` |
| StoriesScreen.StoriesView.HandleTap | Hush-SwiftUI/Hush-SwiftUI/Modules/Story/Stories/StoriesView.swift:106-112 | cell (0,0) opens the options sheet; every other cell shows a story |
| StoriesScreen.StoriesView.ShowMyStory | Hush-SwiftUI/Hush-SwiftUI/Modules/Story/Stories/StoriesView.swift:122-126 | a new `MyStoryViewModel` is presented, with an empty story list and index -1 on a last pick, 0 otherwise |
| StoriesScreen.StoriesView.PickStory | Hush-SwiftUI/Hush-SwiftUI/Modules/Story/Stories/StoriesView.swift:142-150 | a picked image is appended once at the end and the viewer opens on the last pick; a failed pick changes nothing |
| StoriesScreen.StoriesViewModel.constructor | Hush-SwiftUI/Hush-SwiftUI/Modules/Story/Stories/StoriesViewModel.swift:16 | `messages` holds 100 identifiers |
| StoriesScreen.StoriesViewModel.Index | Hush-SwiftUI/Hush-SwiftUI/Modules/Story/Stories/StoriesViewModel.swift:20-23 | requires the element to be present (force unwrap); returns its first position |
| MatchScreen.Unwrapped | Hush-SwiftUI/Hush-SwiftUI/Modules/Match/MatchViewModel.swift:45-47 | force-unwrapping each element keeps the length and the order |
| MatchScreen.ToggledLike | Hush-SwiftUI/Hush-SwiftUI/Modules/Match/MatchViewModel.swift:30-33 | the local copy has `liked` negated and no other field changed; `liked` must be present |
| MatchScreen.ToggledLikeTwice | Hush-SwiftUI/Hush-SwiftUI/Modules/Match/MatchViewModel.swift:30-33 | toggling twice restores the match |
| MatchScreen.MatchViewModel.constructor | Hush-SwiftUI/Hush-SwiftUI/Modules/Match/MatchViewModel.swift:18-24 | empty lists, no indicator, no request |
| MatchScreen.MatchViewModel.MatchAt | Hush-SwiftUI/Hush-SwiftUI/Modules/Match/MatchViewModel.swift:26-28 | `match(i, j)` is `matches[i*2+j]` and requires that position to exist |
| MatchScreen.MatchViewModel.StartLoad | Hush-SwiftUI/Hush-SwiftUI/Modules/Match/MatchViewModel.swift:37-39 | the indicator is shown and one request is issued; the lists are unchanged |
| MatchScreen.MatchViewModel.LoadMatches | Hush-SwiftUI/Hush-SwiftUI/Modules/Match/MatchViewModel.swift:35-39 | shows the indicator and issues the `matches` request |
| MatchScreen.MatchViewModel.LoadMyLikes | Hush-SwiftUI/Hush-SwiftUI/Modules/Match/MatchViewModel.swift:56-60 | shows the indicator and issues the `my_likes` request |
| MatchScreen.MatchViewModel.LoadVisitedMe | Hush-SwiftUI/Hush-SwiftUI/Modules/Match/MatchViewModel.swift:77-80 | shows the indicator and issues the `visited_me` request |
| MatchScreen.MatchViewModel.LoadLikesMe | Hush-SwiftUI/Hush-SwiftUI/Modules/Match/MatchViewModel.swift:97-100 | shows the indicator and issues the `likes_me` request |
| MatchScreen.MatchViewModel.CompleteLoad | Hush-SwiftUI/Hush-SwiftUI/Modules/Match/MatchViewModel.swift:39-53 | the indicator is hidden on every path and `result` is reported once, true iff there is no error. On success `matches` is the returned list in order (empty for a nil list); on error it is empty. `matches1` is untouched |
| MatchScreen.LoaderFor | Hush-SwiftUI/Hush-SwiftUI/Modules/Match/MatchView.swift:33-48 | each of "matches", "visited_me", "my_likes", "likes_me" selects its own loader, and no other string selects one |
| MatchScreen.InitMatchView | Hush-SwiftUI/Hush-SwiftUI/Modules/Match/MatchView.swift:33-48 | `init` issues exactly one request for a known type and none otherwise |
| MatchScreen.ShowsCard | Hush-SwiftUI/Hush-SwiftUI/Modules/Match/MatchView.swift:110 | a slot holds a card iff `i * 2 + j < count`; characterised by `GridCoversEachMatchOnce`, `ShownSlotsAreValid` and `EvenCountLastRowEmpty` |
| MatchScreen.GridShownIffFirstCard | Hush-SwiftUI/Hush-SwiftUI/Modules/Match/MatchView.swift:69-74 | the grid replaces the spacer exactly when its first slot holds a card, and then has count / 2 + 1 rows |
| MatchScreen.GridCoversEachMatchOnce | Hush-SwiftUI/Hush-SwiftUI/Modules/Match/MatchView.swift:72-110 | rows 0...count/2 with columns 0..1 show every index below count in exactly one slot |
| MatchScreen.ShownSlotsAreValid | Hush-SwiftUI/Hush-SwiftUI/Modules/Match/MatchView.swift:110 | a slot that shows a card shows a valid position of `matches` |
| MatchScreen.EvenCountLastRowEmpty | Hush-SwiftUI/Hush-SwiftUI/Modules/Match/MatchView.swift:72-114 | with an even count the last row holds only spacers |
| MatchScreen.Stride | Hush-SwiftUI/Hush-SwiftUI/Modules/Match/MatchView.swift:172 | `stride(from:through:by:)` with a positive step; characterised by `StrideMembership` |
| MatchScreen.StrideMembership | Hush-SwiftUI/Hush-SwiftUI/Modules/Match/MatchView.swift:172 | x is in `stride(from:through:by:)` iff it lies between the bounds and a whole number of steps after the start |
| MatchScreen.IsRotated | Hush-SwiftUI/Hush-SwiftUI/Modules/Match/MatchView.swift:170-173 | holds of the cards drawn upright; characterised by `IsRotatedCharacterization` and `CardAngleByIndex` |
| MatchScreen.IsRotatedCharacterization | Hush-SwiftUI/Hush-SwiftUI/Modules/Match/MatchView.swift:170-173 | for index = i*2+j ≥ 0, `isRotated` holds iff index mod 4 is 0 or 3; for a negative index, iff it is a multiple of 4 |
| MatchScreen.CardAngle | Hush-SwiftUI/Hush-SwiftUI/Modules/Match/MatchView.swift:126 | `isRotated(i, j) ? 0 : -5` degrees; characterised by `CardAngleByIndex` |
| MatchScreen.CardAngleByIndex | Hush-SwiftUI/Hush-SwiftUI/Modules/Match/MatchView.swift:126 | `isRotated` cards are drawn upright: a card at a non-negative index is tilted by -5 degrees iff its index mod 4 is 1 or 2, and upright iff it is 0 or 3 |
| MatchScreen.Leading | Hush-SwiftUI/Hush-SwiftUI/Modules/Match/MatchView.swift:162-164 | 25 for even columns, else 0; characterised by `PaddingOnOneSide` and `CardsPushedApart` |
| MatchScreen.Trailing | Hush-SwiftUI/Hush-SwiftUI/Modules/Match/MatchView.swift:166-168 | 0 for even columns, else 23; characterised by `PaddingOnOneSide` and `CardsPushedApart` |
| MatchScreen.PaddingOnOneSide | Hush-SwiftUI/Hush-SwiftUI/Modules/Match/MatchView.swift:162-168 | `leading` is 25 for even columns and `trailing` 23 for odd ones; exactly one of them is non-zero |
| MatchScreen.RowZIndex | Hush-SwiftUI/Hush-SwiftUI/Modules/Match/MatchView.swift:118 | row i has z-order 100 - i |
| MatchScreen.CardOffsetX | Hush-SwiftUI/Hush-SwiftUI/Modules/Match/MatchView.swift:124 | the card's x-offset is -10 for even columns and 10 for odd ones |
| MatchScreen.CardsPushedApart | Hush-SwiftUI/Hush-SwiftUI/Modules/Match/MatchView.swift:124 | for every column, its neighbour is offset by the same amount the other way; a column moves left exactly when it is padded on its leading edge, and right exactly when it is padded on its trailing edge |
| MatchScreen.CardZIndex | Hush-SwiftUI/Hush-SwiftUI/Modules/Match/MatchView.swift:125 | `j` in even rows and `-j` in odd rows; characterised by `CardZIndexAlternates` |
| MatchScreen.CardZIndexAlternates | Hush-SwiftUI/Hush-SwiftUI/Modules/Match/MatchView.swift:125 | the left card of a row has z-order 0; the right card is drawn above it in even rows and below it in odd rows, so consecutive rows differ |
| MatchScreen.RowZIndexDecreasing | Hush-SwiftUI/Hush-SwiftUI/Modules/Match/MatchView.swift:118 | lower rows are drawn beneath the rows above them |
| Messages.Search | Hush-SwiftUI/Hush-SwiftUI/Modules/Messages/MessagesViewModel.swift:55 | the result is never longer than the storage |
| Messages.MatchesQuery | Hush-SwiftUI/Hush-SwiftUI/Modules/Messages/MessagesViewModel.swift:55 | the query occurs in the username or the text; its use is stated by `SearchMembership` and `FakeStorage.SearchBy` |
| Messages.SearchMembership | Hush-SwiftUI/Hush-SwiftUI/Modules/Messages/MessagesViewModel.swift:53-56 | a conversation is found iff it is stored and its username or text contains the query |
| Messages.SearchKeepsOrder | Hush-SwiftUI/Hush-SwiftUI/Modules/Messages/MessagesViewModel.swift:55 | the search distributes over concatenation, so the storage order is kept |
| Messages.SearchAllMatching | Hush-SwiftUI/Hush-SwiftUI/Modules/Messages/MessagesViewModel.swift:55 | when every conversation matches, the whole storage is returned |
| Messages.FirstIndexWithId | Hush-SwiftUI/Hush-SwiftUI/Modules/Messages/MessagesViewModel.swift:60 | nil iff no conversation has the id; otherwise the first position with that id |
| Messages.RemoveFirstWithId | Hush-SwiftUI/Hush-SwiftUI/Modules/Messages/MessagesViewModel.swift:58-62 | an absent id leaves the storage unchanged; otherwise exactly the first match is cut out and the rest keeps its order |
| Messages.DeleteRemovesOne | Hush-SwiftUI/Hush-SwiftUI/Modules/Messages/MessagesViewModel.swift:58-62 | the storage shrinks by exactly one when the id is present and is unchanged otherwise; it never gains a conversation |
| Messages.DeleteKeepsLaterDuplicates | Hush-SwiftUI/Hush-SwiftUI/Modules/Messages/MessagesViewModel.swift:60-61 | later conversations with the same id survive |
| Messages.FakeStorage.constructor | Hush-SwiftUI/Hush-SwiftUI/Modules/Messages/MessagesViewModel.swift:65-71 | the storage holds the generated conversations, given here |
| Messages.FakeStorage.GetMessages | Hush-SwiftUI/Hush-SwiftUI/Modules/Messages/MessagesViewModel.swift:48-51 | returns the storage |
| Messages.FakeStorage.SearchBy | Hush-SwiftUI/Hush-SwiftUI/Modules/Messages/MessagesViewModel.swift:53-56 | the result holds exactly the stored conversations whose username or text contains the query |
| Messages.FakeStorage.Delete | Hush-SwiftUI/Hush-SwiftUI/Modules/Messages/MessagesViewModel.swift:58-62 | the new storage is the old one with the first conversation with that id removed |
| Messages.MessagesViewModel.constructor | Hush-SwiftUI/Hush-SwiftUI/Modules/Messages/MessagesViewModel.swift:19-23 | `message` is "Hellow World!" and the search query is empty |
| Messages.MessagesViewModel.Items | Hush-SwiftUI/Hush-SwiftUI/Modules/Messages/MessagesViewModel.swift:25-27 | `items` is the storage contents |
| Messages.MessagesViewModel.NumberOfItems | Hush-SwiftUI/Hush-SwiftUI/Modules/Messages/MessagesViewModel.swift:39-42 | `numberOfItems()` is the length of `items` |
| Messages.MessagesViewModel.ItemAt | Hush-SwiftUI/Hush-SwiftUI/Modules/Messages/MessagesViewModel.swift:34-37 | `item(at: i)` requires 0 ≤ i < count and returns the i-th stored conversation |
| Messages.MessagesViewModel.UpdateMessage | Hush-SwiftUI/Hush-SwiftUI/Modules/Messages/MessagesViewModel.swift:29-32 | `message` becomes "New Message" |
| Messages.FilterTitle | Hush-SwiftUI/Hush-SwiftUI/Modules/Messages/Messages/MessagesViewModeled.swift:17-26 | the filter's title; characterised by `FilterTitlesDistinct` |
| Messages.FilterTitlesDistinct | Hush-SwiftUI/Hush-SwiftUI/Modules/Messages/Messages/MessagesViewModeled.swift:12-26 | the titles are "All", "Not Read" and "Users Online"; every filter is listed once in `allCases`; the titles are pairwise distinct |
| Messages.ShouldShowDate | Hush-SwiftUI/Hush-SwiftUI/Modules/Messages/MessageDetail/MessageDetailView.swift:113-117 | decided at the first equal message; characterised by `ShowDateFirstOrAbsent`, `ShowDateByPredecessor`, `ShowDateUsesFirstCopy` and `RunShowsDateOnce` |
| Messages.ShowDateFirstOrAbsent | Hush-SwiftUI/Hush-SwiftUI/Modules/Messages/MessageDetail/MessageDetailView.swift:115 | the first message, and any message not in the list, shows the date |
| Messages.ShowDateByPredecessor | Hush-SwiftUI/Hush-SwiftUI/Modules/Messages/MessageDetail/MessageDetailView.swift:115-116 | in a list without repeats, any other message shows the date iff its predecessor has another author |
| Messages.ShowDateUsesFirstCopy | Hush-SwiftUI/Hush-SwiftUI/Modules/Messages/MessageDetail/MessageDetailView.swift:115 | a repeated message is judged at the position of its first copy |
| Messages.RunShowsDateOnce | Hush-SwiftUI/Hush-SwiftUI/Modules/Messages/MessageDetail/MessageDetailView.swift:113-117 | in a run of consecutive messages by one author, only the first shows the date |
| Messages.BubbleFor | Hush-SwiftUI/Hush-SwiftUI/Modules/Messages/MessageDetail/MessageDetailView.swift:95-111 | a text message is the current user's iff its author is "SELF"; an image message always is; the padding is trailing iff the author is "SELF" |
| UserProfile.LookingForLabel | Hush-SwiftUI/Hush-SwiftUI/Modules/Profile/UserProfile/UserProfileViewModel.swift:43-57 | the label is always "Male", "Female" or "Guy" |
| UserProfile.LookingForCodes | Hush-SwiftUI/Hush-SwiftUI/Modules/Profile/UserProfile/UserProfileViewModel.swift:43-53 | "0", "1" and "2" give "Male", "Female" and "Guy"; a missing value defaults to "1", so "Female" |
| UserProfile.LookingForUnparsable | Hush-SwiftUI/Hush-SwiftUI/Modules/Profile/UserProfile/UserProfileViewModel.swift:54-55 | a value that is not an integer gives "Male" |
| UserProfile.LookingForOtherInteger | Hush-SwiftUI/Hush-SwiftUI/Modules/Profile/UserProfile/UserProfileViewModel.swift:54-55 | an integer other than 0, 1 and 2 gives "Male" |
| UserProfile.LookingForLeadingZero | Hush-SwiftUI/Hush-SwiftUI/Modules/Profile/UserProfile/UserProfileViewModel.swift:43 | "01" parses as 1 and gives "Female" |
| UserProfile.BuildPhotos | Hush-SwiftUI/Hush-SwiftUI/Modules/Profile/UserProfile/UserProfileViewModel.swift:60-72 | requires at most 9 photos (the range `0 ..< 9 - count` traps otherwise). One URL per photo, in order. `unlockedPhotos` ⊆ {0, 1}, holding 1 iff there are at most 8 photos and 0 iff there is at least one |
| UserProfile.UserProfileViewModel.constructor | Hush-SwiftUI/Hush-SwiftUI/Modules/Profile/UserProfile/UserProfileViewModel.swift:32-73 | a nil user means the stored current user. Absent fields fall back to "Jane", "London, UK", "I'm Jain, is 20 years old.", "1" and "0". The label and photo fields are as in `LookingForLabel` and `BuildPhotos` |
| LoginWithEmail.LoginWithEmailViewModel.constructor | Hush-SwiftUI/Hush-SwiftUI/Modules/Auth/Login/LoginWithEmail/LoginWithEmailViewModel.swift:16-21 | empty fields, no error, no navigation |
| LoginWithEmail.LoginWithEmailViewModel.SubmitCompletion | Hush-SwiftUI/Hush-SwiftUI/Modules/Auth/Login/LoginWithEmail/LoginWithEmailViewModel.swift:25-45 | an error wins: the error flag is set to its message and `goToLogin` is untouched. A user clears the error, is saved and flips `goToLogin` once. With neither, nothing changes. `email`, `password` and `showForgotPassword` never change |
| Picker.PickerCoordinator.constructor | Hush-SwiftUI/Hush-SwiftUI/Helpers/PickerTextField.swift:18-20 | the coordinator starts with `selectedTitle == ""`, nothing reported and no resignation |
| Picker.PickerCoordinator.NumberOfComponents | Hush-SwiftUI/Hush-SwiftUI/Helpers/PickerTextField.swift:91-94 | the picker has one component |
| Picker.PickerCoordinator.NumberOfRows | Hush-SwiftUI/Hush-SwiftUI/Helpers/PickerTextField.swift:96-99 | one row per title |
| Picker.PickerCoordinator.TitleForRow | Hush-SwiftUI/Hush-SwiftUI/Helpers/PickerTextField.swift:101-104 | row r is titled `titles[r]`, and r must be a row |
| Picker.PickerCoordinator.DidSelectRow | Hush-SwiftUI/Hush-SwiftUI/Helpers/PickerTextField.swift:106-109 | selecting row r (0 ≤ r < count) sets `selectedTitle` to `titles[r]` and reports nothing |
| Picker.PickerCoordinator.Done | Hush-SwiftUI/Hush-SwiftUI/Helpers/PickerTextField.swift:74-77 | reports the current `selectedTitle` once and resigns the text field once |
| Picker.PickerCoordinator.Cancel | Hush-SwiftUI/Hush-SwiftUI/Helpers/PickerTextField.swift:79-81 | resigns the text field once without reporting and keeps `selectedTitle` |
| Picker.DoneWithoutSelection | Hush-SwiftUI/Hush-SwiftUI/Helpers/PickerTextField.swift:18-77 | "Done" without a prior selection reports "" |
| Picker.SelectThenDone | Hush-SwiftUI/Hush-SwiftUI/Helpers/PickerTextField.swift:74-109 | selecting row r and then "Done" reports `titles[r]` |
| Picker.DateCoordinator.constructor | Hush-SwiftUI/Hush-SwiftUI/Helpers/PickerTextField.swift:134-135 | the date coordinator starts on the current date with nothing reported and no resignation |
| Picker.DateCoordinator.Changed | Hush-SwiftUI/Hush-SwiftUI/Helpers/PickerTextField.swift:207-210 | a wheel change updates `selectedDate` without reporting |
| Picker.DateCoordinator.Done | Hush-SwiftUI/Hush-SwiftUI/Helpers/PickerTextField.swift:192-195 | reports the latest `selectedDate` once and resigns the text field once |
| Picker.DateCoordinator.Cancel | Hush-SwiftUI/Hush-SwiftUI/Helpers/PickerTextField.swift:197-199 | resigns the text field once without reporting |
| Picker.ChangesThenDone | Hush-SwiftUI/Hush-SwiftUI/Helpers/PickerTextField.swift:192-210 | after any number of wheel changes, "Done" reports exactly the last date, or the start date if there was no change, and resigns the text field once |
| FaceDetector.Widest420Unique | Hush-SwiftUI/Hush-SwiftUI/Modules/Auth/NewFaceDetection/ARFaceDetectorView.swift:119 | thanks to the strict `>`, at most one format qualifies as the choice |
| FaceDetector.HighestResolution420Format | Hush-SwiftUI/Hush-SwiftUI/Modules/Auth/NewFaceDetection/ARFaceDetectorView.swift:109-132 | nil iff no format has the 420f subtype. Otherwise the chosen format is 420f, at least as wide as every 420f format and strictly wider than every earlier one. The resolution is its width and height |
| FaceDetector.ExifOrientation | Hush-SwiftUI/Hush-SwiftUI/Modules/Auth/NewFaceDetection/ARFaceDetectorView.swift:281-296 | the orientation is always a mirrored one, and it is `leftMirrored` iff the device is not upside-down, landscape-left or landscape-right |
| FaceDetector.ExifOrientationCases | Hush-SwiftUI/Hush-SwiftUI/Modules/Auth/NewFaceDetection/ARFaceDetectorView.swift:283-295 | upside-down gives rightMirrored, landscape-left downMirrored and landscape-right upMirrored; two orientations share a value iff they are equal or both fall to the default |
| FaceDetector.MaskInsets | Hush-SwiftUI/Hush-SwiftUI/Modules/Auth/NewFaceDetection/ARFaceDetectorView.swift:525-541 | for every mask, left = right = -h and bottom = -v; top is v, except for the ancient mask where it is -v/4 |
| FaceDetector.InsetBy | Hush-SwiftUI/Hush-SwiftUI/Modules/Auth/NewFaceDetection/ARFaceDetectorView.swift:544 | `CGRect.inset(by:)`: the left and top edges move in by `left` and `top`, the right and bottom edges move back by `right` and `bottom` |
| FaceDetector.MaskFrame | Hush-SwiftUI/Hush-SwiftUI/Modules/Auth/NewFaceDetection/ARFaceDetectorView.swift:525-544 | the mask frame is the face widened by h on each side. The ball, funny and glasses masks keep the face's height and move down by v. The ancient mask grows by 5v/4 and starts v/4 above the face |
| FaceDetector.Advance | Hush-SwiftUI/Hush-SwiftUI/Modules/Auth/NewFaceDetection/ARFaceDetectorView.swift:678-685 | a last-frame request is not touched. A tracking request follows an observation whose confidence is above 0.3; otherwise it is marked last-frame, keeping its old observation |
| FaceDetector.FirstUnusable | Hush-SwiftUI/Hush-SwiftUI/Modules/Auth/NewFaceDetection/ARFaceDetectorView.swift:670-676 | the position of the first request without results or without an observation; every earlier request has one |
| FaceDetector.Survivors | Hush-SwiftUI/Hush-SwiftUI/Modules/Auth/NewFaceDetection/ARFaceDetectorView.swift:678-687 | `newTrackingRequests`: each request that was not already last-frame, advanced, in order; characterised by `SurvivorsMembership`, `SurvivorsKeepOrder` and `SurvivorsJustMarked` |
| FaceDetector.SurvivorsMembership | Hush-SwiftUI/Hush-SwiftUI/Modules/Auth/NewFaceDetection/ARFaceDetectorView.swift:678-687 | a request is in the new list iff it was not already last-frame, and it appears there advanced |
| FaceDetector.SurvivorsKeepOrder | Hush-SwiftUI/Hush-SwiftUI/Modules/Auth/NewFaceDetection/ARFaceDetectorView.swift:667-687 | the new list distributes over concatenation, so the order is kept |
| FaceDetector.SurvivorsJustMarked | Hush-SwiftUI/Hush-SwiftUI/Modules/Auth/NewFaceDetection/ARFaceDetectorView.swift:680-685 | a kept request is marked last-frame only if this refresh saw a confidence of at most 0.3 |
| FaceDetector.RefreshTracking | Hush-SwiftUI/Hush-SwiftUI/Modules/Auth/NewFaceDetection/ARFaceDetectorView.swift:667-687 | requests before the first unusable one are advanced in place and the rest are untouched. The list is replaced iff every request has results and an observation, and then by the survivors |

## Left out

- The HTTP requests (Alamofire), SwiftyJSON and `JSONDecoder` decoding: responses arrive as decoded records. A body that is not JSON (the `try!` crash) is not modelled.
- SwiftUI view bodies, layout, gestures, navigation and presentation (`modalPresenterManager`, alerts): only the state they read or set is modelled.
- The image picker, the Faker data generator and the UUIDs of `StoriesViewModel`: their output is a parameter of the constructors (`FakeStorage`, `StoriesViewModel`, `PickStory`).
- The `UserDefault` persistence and JSON encoding of the logged-in user: modelled as the `savedUser` field.
- `Common.setCapturedImage` and `capturedImage`, and the profile fields `mode`, `aboutMe`, `location` and `stories`: they are plain assignments or constants with nothing to state.
- The camera, Vision and CoreAnimation pipeline of `ARFaceDetectorView`: the capture session, performing requests, drawing and screenshots. Only the choice of format, the EXIF mapping, the mask insets and the tracking refresh are modelled.
- Main-queue dispatch and the timing of callbacks: every completion runs to its end in one step.
- The `result` callbacks of the match loaders are represented by `CompleteLoad`'s return value. The callback that `MatchView.init` passes ignores it.
- MatchScreen.ToggledLike: whether `like(_:_:)` changes `matches` depends on the definition of `Match`, which is not part of this model, so only the local copy is described.
- SwiftInt.Rem: states bounds and sign only, and equality with Dafny's `%` only for a non-negative dividend. Its uses are characterised by `IsRotatedCharacterization` and `PaddingOnOneSide`.
- StringExt.Contains: the empty needle counts as contained. Nothing in the modelled code searches for the empty string except a user's search query.
- StringExt.Capitalized and StringExt.ToUpper: upper- and lower-casing are modelled over ASCII only. Words are separated by spaces only.
- FaceDetector.RefreshTracking: requests are values, so two entries that are the same object are treated as independent copies. The confidence is a real number compared with 0.3; floating-point rounding is not modelled.
- FaceDetector.MaskInsets: `CGFloat` is modelled as an exact real.
- Picker.DateCoordinator.constructor: `Date()` (the clock) is a parameter.
- The `UnitPoint` anchor of the card rotation (`MatchView.swift` line 126) is a presentation constant and is not modelled. The angle is: `IsRotated` selects the cards drawn upright, and every other card is tilted by -5 degrees (`CardAngle`).
- HushMessage equality: the `Equatable` conformance that `firstIndex(of:)` relies on is not part of this model. Equality is taken to be structural, over every field. Messages.ShouldShowDate, Messages.ShowDateUsesFirstCopy and Messages.RunShowsDateOnce depend on this.
- `resignFirstResponder()` on the text fields is modelled only as a count of calls. Its effect on UIKit's keyboard is not modelled.
- Unicode canonical equivalence: Swift compares `String`s by canonical equivalence, so "caf\u{E9}" contains "cafe\u{301}". The model compares characters exactly. StringExt.Contains, StringExt.ReplaceEntities, StringExt.ParseSpecialText, Common.HandleErrorMessage, Messages.MatchesQuery, Messages.Search and Messages.FakeStorage.SearchBy therefore answer differently from Swift on such text.
- 64-bit overflow traps: integers are unbounded in the model, and none of the following traps at the 64-bit limits as Swift's `Int` arithmetic does:
  - StoryViewer.MyStoryViewModel.ShowNext (`currentStoryIndex += 1`);
  - MatchScreen.MatchViewModel.MatchAt and MatchScreen.ShowsCard (`i * 2 + j`);
  - StoriesScreen.CardRotation (`i * 3 + j`);
  - MatchScreen.RowZIndex (`100 - i`).
- StoryApi.ResponseBody: the decoded record assumes the JSON fields hold numbers where numbers are read. SwiftyJSON's `intValue` also converts a numeric string such as "3", and `.int` reads `false` as 0. Neither conversion is modelled.
