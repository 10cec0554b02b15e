/**
 * The matches screen: `MatchViewModel` (its list loaders and their shared
 * completion handler) and the pure grid rules of `MatchView` (which slot
 * shows which match, rotation, padding, offsets and z-order).
 */
module MatchScreen {
  import opened Wrappers
  import opened Models
  import opened SwiftInt

  /** The four list endpoints of `MatchesAPI`. */
  datatype Endpoint = Matches | VisitedMe | MyLikes | LikesMe

  /** `i * 2 + j`: the position in `matches` shown at row `i`, column `j`. */
  function Slot(i: int, j: int): int
  {
    i * 2 + j
  }

  /** The list after force-unwrapping each element (`match!`). */
  function Unwrapped(list: seq<Option<Match>>): (ms: seq<Match>)
    requires forall k :: 0 <= k < |list| ==> list[k].Some?
    ensures |ms| == |list|
    ensures forall k :: 0 <= k < |list| ==> list[k] == Some(ms[k])
  {
    seq(|list|, k requires 0 <= k < |list| => list[k].value)
  }

  /**
   * The copy that `like(_:_:)` toggles: `liked!` is force-unwrapped, so it
   * must be present. Whether this reaches `matches` depends on whether
   * `Match` is a value or a reference type, which is not part of this model.
   */
  function ToggledLike(m: Match): (t: Match)
    requires m.liked.Some?
    ensures t.liked == Some(!m.liked.value)
    ensures t.(liked := m.liked) == m
  {
    m.(liked := Some(!m.liked.value))
  }

  /** Toggling twice restores the match. */
  lemma ToggledLikeTwice(m: Match)
    requires m.liked.Some?
    ensures ToggledLike(ToggledLike(m)) == m
  {
  }

  class MatchViewModel<Discover> {
    var matches: seq<Match>
    var matches1: seq<Discover>
    var isShowingIndicator: bool
    /** The `MatchesAPI` requests issued so far, oldest first. */
    var requests: seq<Endpoint>

    constructor ()
      ensures matches == [] && matches1 == [] && !isShowingIndicator && requests == []
    {
      matches := [];
      matches1 := [];
      isShowingIndicator := false;
      requests := [];
    }

    /** `match(_:_:)`: subscripting traps outside the list. */
    function MatchAt(i: int, j: int): (m: Match)
      reads this
      requires 0 <= Slot(i, j) < |matches|
      ensures m in matches
      ensures m == matches[Slot(i, j)]
    {
      matches[i * 2 + j]
    }

    /** The first half of each loader: show the indicator and issue the request. */
    method StartLoad(endpoint: Endpoint)
      modifies this
      ensures isShowingIndicator
      ensures requests == old(requests) + [endpoint]
      ensures matches == old(matches) && matches1 == old(matches1)
    {
      isShowingIndicator := true;
      requests := requests + [endpoint];
    }

    /** `loadMatches(result:)` up to the request. */
    method LoadMatches()
      modifies this
      ensures isShowingIndicator && requests == old(requests) + [Matches]
      ensures matches == old(matches) && matches1 == old(matches1)
    {
      StartLoad(Matches);
    }

    /** `loadMyLikes(result:)` up to the request. */
    method LoadMyLikes()
      modifies this
      ensures isShowingIndicator && requests == old(requests) + [MyLikes]
      ensures matches == old(matches) && matches1 == old(matches1)
    {
      StartLoad(MyLikes);
    }

    /** `loadVisitedMe(result:)` up to the request. */
    method LoadVisitedMe()
      modifies this
      ensures isShowingIndicator && requests == old(requests) + [VisitedMe]
      ensures matches == old(matches) && matches1 == old(matches1)
    {
      StartLoad(VisitedMe);
    }

    /** `loadLikesMe(result:)` up to the request. */
    method LoadLikesMe()
      modifies this
      ensures isShowingIndicator && requests == old(requests) + [LikesMe]
      ensures matches == old(matches) && matches1 == old(matches1)
    {
      StartLoad(LikesMe);
    }

    /**
     * The completion handler the four loaders share: hide the indicator,
     * clear `matches`, refill it on success, and report once through
     * `result`, whose argument is returned here.
     */
    method CompleteLoad(matchList: Option<seq<Option<Match>>>, error: Option<APIError>)
      returns (result: bool)
      requires error.None? && matchList.Some? ==>
        forall k :: 0 <= k < |matchList.value| ==> matchList.value[k].Some?
      modifies this
      ensures !isShowingIndicator
      ensures result <==> error.None?
      ensures matches == if error.None? && matchList.Some? then Unwrapped(matchList.value) else []
      ensures matches1 == old(matches1) && requests == old(requests)
    {
      isShowingIndicator := false;
      matches := [];
      if error == None {
        if matchList.Some? {
          var list := matchList.value;
          for index := 0 to |list|
            invariant matches == Unwrapped(list[..index])
            invariant !isShowingIndicator
            invariant matches1 == old(matches1) && requests == old(requests)
          {
            assert list[..index + 1] == list[..index] + [list[index]];
            matches := matches + [list[index].value];
          }
          assert list[..|list|] == list;
        }
        result := true;
      } else {
        result := false;
      }
    }
  }

  /** The loader `MatchView.init` starts for a `match_type`, if any. */
  function LoaderFor(matchType: string): (e: Option<Endpoint>)
    ensures e == Some(Matches) <==> matchType == "matches"
    ensures e == Some(VisitedMe) <==> matchType == "visited_me"
    ensures e == Some(MyLikes) <==> matchType == "my_likes"
    ensures e == Some(LikesMe) <==> matchType == "likes_me"
  {
    if matchType == "matches" then Some(Matches)
    else if matchType == "visited_me" then Some(VisitedMe)
    else if matchType == "my_likes" then Some(MyLikes)
    else if matchType == "likes_me" then Some(LikesMe)
    else None
  }

  /** `MatchView.init`'s dispatch: exactly one loader for a known type, none otherwise. */
  method InitMatchView<Discover>(viewModel: MatchViewModel<Discover>, matchType: string)
    modifies viewModel
    ensures LoaderFor(matchType).None? ==>
      viewModel.requests == old(viewModel.requests) &&
      viewModel.isShowingIndicator == old(viewModel.isShowingIndicator)
    ensures LoaderFor(matchType).Some? ==>
      viewModel.requests == old(viewModel.requests) + [LoaderFor(matchType).value] &&
      viewModel.isShowingIndicator
    ensures viewModel.matches == old(viewModel.matches)
  {
    if matchType == "matches" {
      viewModel.LoadMatches();
    } else if matchType == "visited_me" {
      viewModel.LoadVisitedMe();
    } else if matchType == "my_likes" {
      viewModel.LoadMyLikes();
    } else if matchType == "likes_me" {
      viewModel.LoadLikesMe();
    }
  }

  // ---------------------------------------------------------------------------
  // Grid of `MatchView`: rows `0...count/2`, columns `0..<2`.

  /** The grid is built only when there is at least one match. */
  predicate ShowsGrid(count: nat)
  {
    count > 0
  }

  /** Rows are `0...count / 2`, both ends included. */
  predicate InGrid(i: int, j: int, count: nat)
  {
    0 <= i <= count / 2 && 0 <= j < 2
  }

  /** `row(at:)`: a slot shows a card iff its index is inside the list, else a spacer. */
  predicate ShowsCard(i: int, j: int, count: nat)
  {
    Slot(i, j) < count
  }

  /**
   * The grid replaces the spacer exactly when its first slot holds a card,
   * and then it has `count / 2 + 1` rows.
   */
  lemma GridShownIffFirstCard(count: nat)
    ensures ShowsGrid(count) <==> InGrid(0, 0, count) && ShowsCard(0, 0, count)
    ensures ShowsGrid(count) ==> InGrid(count / 2, 0, count) && !InGrid(count / 2 + 1, 0, count)
  {
  }

  /** Every match has exactly one grid slot showing it. */
  lemma GridCoversEachMatchOnce(k: int, count: nat)
    requires 0 <= k < count
    ensures InGrid(k / 2, k % 2, count) && ShowsCard(k / 2, k % 2, count) && Slot(k / 2, k % 2) == k
    ensures forall i, j :: InGrid(i, j, count) && Slot(i, j) == k ==> i == k / 2 && j == k % 2
  {
    forall i, j | InGrid(i, j, count) && Slot(i, j) == k
      ensures i == k / 2 && j == k % 2
    {
      assert k == 2 * i + j && 0 <= j < 2;
    }
  }

  /** Every slot showing a card shows a valid position of the list. */
  lemma ShownSlotsAreValid(i: int, j: int, count: nat)
    requires InGrid(i, j, count) && ShowsCard(i, j, count)
    ensures 0 <= Slot(i, j) < count
  {
  }

  /** With an even count the last row holds only spacers. */
  lemma EvenCountLastRowEmpty(count: nat, j: int)
    requires count > 0 && count % 2 == 0 && 0 <= j < 2
    ensures InGrid(count / 2, j, count) && !ShowsCard(count / 2, j, count)
  {
  }

  /** `stride(from:through:by:)` with a positive step, as a list. */
  function Stride(from: int, through: int, step: int): (s: seq<int>)
    requires step > 0
    decreases through - from
  {
    if from > through then [] else [from] + Stride(from + step, through, step)
  }

  /** `x` lies `n` whole steps after `from`. */
  predicate StepsAfter(from: int, x: int, step: int, n: nat)
  {
    x == from + n * step
  }

  /** Membership in a stride: between the bounds and a whole number of steps after the start. */
  lemma {:induction false} StrideMembership(from: int, through: int, step: int, x: int)
    requires step > 0
    ensures x in Stride(from, through, step) <==>
      from <= x <= through && exists n: nat :: StepsAfter(from, x, step, n)
    decreases through - from
  {
    if from <= through {
      StrideMembership(from + step, through, step, x);
      if x in Stride(from, through, step) {
        if x == from {
          assert StepsAfter(from, x, step, 0);
        } else {
          var n: nat :| StepsAfter(from + step, x, step, n);
          assert StepsAfter(from, x, step, n + 1) by {
            assert (n + 1) * step == n * step + step;
          }
        }
      }
      if from <= x <= through && exists n: nat :: StepsAfter(from, x, step, n) {
        var n: nat :| StepsAfter(from, x, step, n);
        if n > 0 {
          assert StepsAfter(from + step, x, step, n - 1) by {
            assert n * step == (n - 1) * step + step;
          }
        }
      }
    } else {
      assert Stride(from, through, step) == [];
    }
  }

  /** `isRotated(_:_:)`, with Swift's truncating `%`: holds of the cards drawn upright. */
  predicate IsRotated(i: int, j: int)
  {
    var index := Slot(i, j);
    Rem(index, 4) == 0 || index in Stride(3, index, 4)
  }

  /** From 3, whole steps of 4 reach exactly the numbers that are 3 modulo 4. */
  lemma StepsOfFour(x: int)
    requires x >= 3
    ensures (exists n: nat :: StepsAfter(3, x, 4, n)) <==> x % 4 == 3
  {
    if x % 4 == 3 {
      assert StepsAfter(3, x, 4, (x - 3) / 4);
    }
  }

  /**
   * `IsRotated` selects the cards drawn upright: for a non-negative index,
   * those whose index is 0 or 3 modulo 4; for a negative index, the
   * multiples of 4. Every other card is tilted.
   */
  lemma IsRotatedCharacterization(i: int, j: int)
    ensures Slot(i, j) >= 0 ==> (IsRotated(i, j) <==> Slot(i, j) % 4 == 0 || Slot(i, j) % 4 == 3)
    ensures Slot(i, j) < 0 ==> (IsRotated(i, j) <==> Slot(i, j) % 4 == 0)
  {
    RotatedIndex(Slot(i, j));
  }

  /** `isRotated` on the index itself. */
  lemma RotatedIndex(index: int)
    ensures index >= 0 ==> (Rem(index, 4) == 0 || index in Stride(3, index, 4) <==> index % 4 == 0 || index % 4 == 3)
    ensures index < 0 ==> (Rem(index, 4) == 0 || index in Stride(3, index, 4) <==> index % 4 == 0)
  {
    if index < 3 {
      assert Stride(3, index, 4) == [];
    } else {
      StrideMembership(3, index, 4, index);
      StepsOfFour(index);
    }
    if index < 0 {
      assert Rem(index, 4) == 0 <==> (-index) % 4 == 0;
      assert (-index) % 4 == 0 <==> index % 4 == 0;
    }
  }

  /** The tilt of card `(i, j)` in degrees: upright when `isRotated` holds, else -5. */
  function CardAngle(i: int, j: int): int
  {
    if IsRotated(i, j) then 0 else -5
  }

  /**
   * Of the cards at non-negative indices, those at 1 and 2 modulo 4 are
   * tilted by -5 degrees and those at 0 and 3 modulo 4 stand upright, so the
   * grid tilts the two cards on one diagonal of every 2 by 2 block.
   */
  lemma CardAngleByIndex(i: int, j: int)
    requires Slot(i, j) >= 0
    ensures CardAngle(i, j) == -5 <==> Slot(i, j) % 4 == 1 || Slot(i, j) % 4 == 2
    ensures CardAngle(i, j) == 0 <==> Slot(i, j) % 4 == 0 || Slot(i, j) % 4 == 3
  {
    IsRotatedCharacterization(i, j);
  }

  /** `leading(_:)`: 25 points for even columns. */
  function Leading(j: int): int
  {
    if Rem(j, 2) == 0 then 25 else 0
  }

  /** `trailing(_:)`: 23 points for odd columns. */
  function Trailing(j: int): int
  {
    if Rem(j, 2) == 0 then 0 else 23
  }

  /** Exactly one of the two paddings is non-zero, by the parity of the column. */
  lemma PaddingOnOneSide(j: int)
    ensures (Leading(j) != 0) != (Trailing(j) != 0)
    ensures j % 2 == 0 ==> Leading(j) == 25 && Trailing(j) == 0
    ensures j % 2 == 1 ==> Leading(j) == 0 && Trailing(j) == 23
  {
    if j < 0 {
      assert Rem(j, 2) == 0 <==> (-j) % 2 == 0;
      assert (-j) % 2 == 0 <==> j % 2 == 0;
    }
  }

  /** The z-order of row `i`: `100 - i`. */
  function RowZIndex(i: int): (z: int)
    ensures z + i == 100
  {
    100 - i
  }

  /** The horizontal card offset: -10 for even columns, 10 for odd ones. */
  function CardOffsetX(j: int): (x: int)
    ensures j >= 0 ==> (x == -10 <==> j % 2 == 0) && (x == 10 <==> j % 2 == 1)
  {
    if Rem(j, 2) == 0 then -10 else 10
  }

  /** Swift's `a % 2 == 0` holds exactly for the even integers, negative ones included. */
  lemma RemTwoIsParity(a: int)
    ensures Rem(a, 2) == 0 <==> a % 2 == 0
  {
    if a < 0 {
      assert Rem(a, 2) == 0 <==> (-a) % 2 == 0;
      assert (-a) % 2 == 0 <==> a % 2 == 0;
    }
  }

  /**
   * Neighbouring columns are pushed apart by the same amount in opposite
   * directions, and the column pushed left is the one padded on its leading
   * edge.
   */
  lemma CardsPushedApart(j: int)
    ensures CardOffsetX(j) == -CardOffsetX(j + 1)
    ensures CardOffsetX(j) < 0 <==> Leading(j) != 0
    ensures CardOffsetX(j) > 0 <==> Trailing(j) != 0
  {
    RemTwoIsParity(j);
    RemTwoIsParity(j + 1);
  }

  /** The z-order of card `(i, j)` within its row: `j` in even rows, `-j` in odd rows. */
  function CardZIndex(i: int, j: int): int
  {
    if Rem(i, 2) == 0 then j else -j
  }

  /**
   * Where the two cards of a row overlap, the right card is drawn on top in
   * even rows and the left card in odd rows; the left card is always at 0.
   */
  lemma CardZIndexAlternates(i: int)
    ensures CardZIndex(i, 0) == 0
    ensures i % 2 == 0 ==> CardZIndex(i, 1) > CardZIndex(i, 0)
    ensures i % 2 == 1 ==> CardZIndex(i, 1) < CardZIndex(i, 0)
    ensures CardZIndex(i, 1) != CardZIndex(i + 1, 1)
  {
    RemTwoIsParity(i);
    RemTwoIsParity(i + 1);
  }

  /** Lower rows are drawn beneath the rows above them. */
  lemma RowZIndexDecreasing(i: int, k: int)
    requires i < k
    ensures RowZIndex(k) < RowZIndex(i)
  {
  }
}
