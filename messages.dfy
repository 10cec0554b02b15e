/**
 * Conversations: the in-memory `FakeStorage` (search and delete),
 * `MessagesViewModel`'s accessors, the message filter titles, and the
 * date-separator and bubble-side rules of `MessageDetailView`.
 */
module Messages {
  import opened Wrappers
  import opened StringExt
  import opened Collections

  /** One chat message: text or image, with its author's id. */
  datatype HushMessage =
    | TextMessage(id: string, userID: string, text: string, time: int)
    | ImageMessage(id: string, userID: string, image: string, time: int)

  /** One conversation of the inbox. */
  datatype HushConversation = HushConversation(
    id: string,
    username: string,
    text: string,
    imageURL: string,
    time: int,
    messages: seq<HushMessage>)

  // ---------------------------------------------------------------------------
  // FakeStorage.search

  /** The search predicate: the query occurs in the username or in the text. */
  predicate MatchesQuery(c: HushConversation, query: string)
  {
    Contains(c.username, query) || Contains(c.text, query)
  }

  /** `storage.filter { … }`: the matching conversations, in storage order. */
  function Search(storage: seq<HushConversation>, query: string): (r: seq<HushConversation>)
    ensures |r| <= |storage|
  {
    if storage == [] then []
    else
      var head := if MatchesQuery(storage[0], query) then [storage[0]] else [];
      head + Search(storage[1..], query)
  }

  /** A conversation is found iff it is stored and matches the query. */
  lemma {:induction false} SearchMembership(storage: seq<HushConversation>, query: string, c: HushConversation)
    ensures c in Search(storage, query) <==> c in storage && MatchesQuery(c, query)
  {
    if storage != [] {
      SearchMembership(storage[1..], query, c);
      assert storage == [storage[0]] + storage[1..];
    }
  }

  /** Search keeps the storage order: it distributes over concatenation. */
  lemma {:induction false} SearchKeepsOrder(a: seq<HushConversation>, b: seq<HushConversation>, query: string)
    ensures Search(a + b, query) == Search(a, query) + Search(b, query)
  {
    if a != [] {
      assert (a + b)[1..] == a[1..] + b;
      SearchKeepsOrder(a[1..], b, query);
    } else {
      assert a + b == b;
    }
  }

  /** When every conversation matches, search returns the whole storage. */
  lemma {:induction false} SearchAllMatching(storage: seq<HushConversation>, query: string)
    requires forall k :: 0 <= k < |storage| ==> MatchesQuery(storage[k], query)
    ensures Search(storage, query) == storage
  {
    if storage != [] {
      SearchAllMatching(storage[1..], query);
      assert storage == [storage[0]] + storage[1..];
    }
  }

  // ---------------------------------------------------------------------------
  // FakeStorage.delete

  /** `firstIndex(where: { message.id == $0.id })`. */
  function FirstIndexWithId(storage: seq<HushConversation>, id: string): (p: Option<nat>)
    ensures p.None? <==> forall k :: 0 <= k < |storage| ==> storage[k].id != id
    ensures p.Some? ==> p.value < |storage| && storage[p.value].id == id
    ensures p.Some? ==> forall k :: 0 <= k < p.value ==> storage[k].id != id
  {
    if storage == [] then None
    else if storage[0].id == id then Some(0)
    else match FirstIndexWithId(storage[1..], id)
      case None => None
      case Some(q) => Some(q + 1)
  }

  /** The storage after deleting the first conversation with `id`, if any. */
  function RemoveFirstWithId(storage: seq<HushConversation>, id: string): (r: seq<HushConversation>)
    ensures FirstIndexWithId(storage, id).None? ==> r == storage
    ensures FirstIndexWithId(storage, id).Some? ==>
      var p := FirstIndexWithId(storage, id).value;
      |r| == |storage| - 1 && r == storage[..p] + storage[p + 1..]
  {
    match FirstIndexWithId(storage, id)
    case None => storage
    case Some(p) => storage[..p] + storage[p + 1..]
  }

  /** Deleting removes exactly one conversation with the id when there is one. */
  lemma DeleteRemovesOne(storage: seq<HushConversation>, id: string)
    ensures (exists k :: 0 <= k < |storage| && storage[k].id == id) ==>
      |RemoveFirstWithId(storage, id)| == |storage| - 1
    ensures (forall k :: 0 <= k < |storage| ==> storage[k].id != id) ==>
      RemoveFirstWithId(storage, id) == storage
    ensures multiset(RemoveFirstWithId(storage, id)) <= multiset(storage)
  {
    match FirstIndexWithId(storage, id)
    case None =>
    case Some(p) =>
      assert storage == storage[..p] + [storage[p]] + storage[p + 1..];
  }

  /** Later conversations with the same id survive a delete. */
  lemma DeleteKeepsLaterDuplicates(storage: seq<HushConversation>, id: string, k: nat)
    requires k < |storage| && storage[k].id == id
    requires FirstIndexWithId(storage, id).Some? && FirstIndexWithId(storage, id).value < k
    ensures storage[k] in RemoveFirstWithId(storage, id)
  {
    var p := FirstIndexWithId(storage, id).value;
    assert storage[k] == storage[p + 1..][k - p - 1];
  }

  /** `FakeStorage`: an array of conversations. */
  class FakeStorage {
    var storage: seq<HushConversation>

    /** The storage is filled by a fake-data generator in the source; here it is given. */
    constructor (initial: seq<HushConversation>)
      ensures storage == initial
    {
      storage := initial;
    }

    /** `getMessages()`. */
    function GetMessages(): (ms: seq<HushConversation>)
      reads this
      ensures ms == storage
    {
      storage
    }

    /** `search(by:)`. */
    function SearchBy(query: string): (r: seq<HushConversation>)
      reads this
      ensures forall c :: c in r <==> c in storage && MatchesQuery(c, query)
    {
      forall c ensures c in Search(storage, query) <==> c in storage && MatchesQuery(c, query) {
        SearchMembership(storage, query, c);
      }
      Search(storage, query)
    }

    /** `delete(message:)`: removes the first conversation with the same id. */
    method Delete(message: HushConversation)
      modifies this
      ensures storage == RemoveFirstWithId(old(storage), message.id)
    {
      var index := FirstIndexWithId(storage, message.id);
      if index.Some? {
        storage := storage[..index.value] + storage[index.value + 1..];
      }
    }
  }

  /** `MessagesViewModel`: reads its conversations through a `FakeStorage`. */
  class MessagesViewModel {
    var message: string
    var searchQuery: string
    const storage: FakeStorage

    constructor (storage: FakeStorage)
      ensures message == "Hellow World!" && searchQuery == "" && this.storage == storage
    {
      message := "Hellow World!";
      searchQuery := "";
      this.storage := storage;
    }

    /** `items`. */
    function Items(): (items: seq<HushConversation>)
      reads this, storage
      ensures items == storage.storage
    {
      storage.GetMessages()
    }

    /** `numberOfItems()`. */
    function NumberOfItems(): (n: nat)
      reads this, storage
      ensures n == |Items()|
    {
      |storage.GetMessages()|
    }

    /** `item(at:)`: subscripting traps outside the list. */
    function ItemAt(index: int): (c: HushConversation)
      reads this, storage
      requires 0 <= index < NumberOfItems()
      ensures c == Items()[index] && c in storage.storage
    {
      storage.GetMessages()[index]
    }

    /** `updateMessage()`. */
    method UpdateMessage()
      modifies this
      ensures message == "New Message" && searchQuery == old(searchQuery)
    {
      message := "New Message";
    }
  }

  // ---------------------------------------------------------------------------
  // MessagesFilter

  datatype MessagesFilter = All | NotRead | UsersOnline

  /** `allCases`, in declaration order. */
  const AllFilters: seq<MessagesFilter> := [All, NotRead, UsersOnline]

  /** `title`. */
  function FilterTitle(f: MessagesFilter): string
  {
    match f
    case All => "All"
    case NotRead => "Not Read"
    case UsersOnline => "Users Online"
  }

  /**
   * The titles are "All", "Not Read" and "Users Online"; every filter is
   * listed once and the titles tell the filters apart.
   */
  lemma FilterTitlesDistinct(f: MessagesFilter, g: MessagesFilter)
    ensures FilterTitle(All) == "All" && FilterTitle(NotRead) == "Not Read"
    ensures FilterTitle(UsersOnline) == "Users Online"
    ensures f in AllFilters
    ensures forall a, b :: 0 <= a < b < |AllFilters| ==> AllFilters[a] != AllFilters[b]
    ensures FilterTitle(f) == FilterTitle(g) <==> f == g
  {
  }

  // ---------------------------------------------------------------------------
  // MessageDetailView

  /** `messageShouldShowDate(_:)`: by the first equal message's predecessor. */
  function ShouldShowDate(messages: seq<HushMessage>, message: HushMessage): bool
  {
    match FirstIndexOf(messages, message)
    case None => true
    case Some(index) => index == 0 || messages[index - 1].userID != message.userID
  }

  /** The first message, and any message not in the list, shows the date. */
  lemma ShowDateFirstOrAbsent(messages: seq<HushMessage>, message: HushMessage)
    requires message !in messages || (|messages| > 0 && message == messages[0])
    ensures ShouldShowDate(messages, message)
  {
  }

  /** Any other message shows the date iff its predecessor has another author. */
  lemma ShowDateByPredecessor(messages: seq<HushMessage>, k: nat)
    requires 0 < k < |messages|
    requires forall a, b :: 0 <= a < b < |messages| ==> messages[a] != messages[b]
    ensures ShouldShowDate(messages, messages[k]) <==> messages[k - 1].userID != messages[k].userID
  {
    FirstIndexOfDistinct(messages, k);
  }

  /**
   * A repeated message is judged at its first position, so a later copy
   * inherits that position's answer.
   */
  lemma ShowDateUsesFirstCopy(messages: seq<HushMessage>, a: nat, b: nat)
    requires a < b < |messages| && messages[a] == messages[b]
    requires forall k :: 0 <= k < a ==> messages[k] != messages[a]
    ensures ShouldShowDate(messages, messages[b]) ==
      (a == 0 || messages[a - 1].userID != messages[a].userID)
  {
    assert FirstIndexOf(messages, messages[b]) == Some(a);
  }

  /** In a run of same-author messages, only the first shows the date. */
  lemma {:induction false} RunShowsDateOnce(messages: seq<HushMessage>, start: nat, end: nat)
    requires start < end <= |messages|
    requires forall a, b :: 0 <= a < b < |messages| ==> messages[a] != messages[b]
    requires forall k :: start <= k < end ==> messages[k].userID == messages[start].userID
    requires start == 0 || messages[start - 1].userID != messages[start].userID
    ensures forall k :: start <= k < end ==> (ShouldShowDate(messages, messages[k]) <==> k == start)
  {
    forall k | start <= k < end
      ensures ShouldShowDate(messages, messages[k]) <==> k == start
    {
      if k == 0 {
        ShowDateFirstOrAbsent(messages, messages[k]);
      } else {
        ShowDateByPredecessor(messages, k);
      }
    }
  }

  /** Which side a bubble sits on: padded on the trailing or the leading edge. */
  datatype Edge = Leading | Trailing

  /** How a message is drawn. */
  datatype Bubble = Bubble(isCurrentUser: bool, showsDate: bool, padding: Edge)

  /** The author id of the signed-in user in the conversation data. */
  const SelfId: string := "SELF"

  /**
   * `viewForTextMessage` / `viewForImageMessage`: text messages are the
   * current user's iff written by "SELF"; image messages are always drawn
   * as the current user's; the padding side follows the author either way.
   */
  function BubbleFor(messages: seq<HushMessage>, message: HushMessage): (b: Bubble)
    ensures message.TextMessage? ==> (b.isCurrentUser <==> message.userID == SelfId)
    ensures message.ImageMessage? ==> b.isCurrentUser
    ensures b.padding == Trailing <==> message.userID == SelfId
    ensures b.showsDate == ShouldShowDate(messages, message)
  {
    var edge := if message.userID == SelfId then Trailing else Leading;
    match message
    case TextMessage(_, _, _, _) => Bubble(message.userID == SelfId, ShouldShowDate(messages, message), edge)
    case ImageMessage(_, _, _, _) => Bubble(true, ShouldShowDate(messages, message), edge)
  }
}
