/** A pill-box card that slides left under a finger to uncover its delete
    button: the slide follows the finger up to 100 pixels and, when the
    finger lifts, snaps fully open past 60 pixels or back shut otherwise. */
module SwipeableCard {

  /** The furthest the card slides, and the slide past which it stays open. */
  const MaxOffset: int := 100
  const SnapThreshold: int := 60

  /** `Math.max(lo, Math.min(hi, v))` */
  function Clamp(v: int, lo: int, hi: int): (r: int)
    requires lo <= hi
    ensures lo <= r <= hi
    ensures lo <= v <= hi ==> r == v
    ensures v < lo ==> r == lo
    ensures v > hi ==> r == hi
  {
    if v < lo then lo else if v > hi then hi else v
  }

  /** Where the card rests once the finger lifts. */
  function Snap(offset: int): (r: int)
    ensures r == 0 || r == MaxOffset
    ensures r == MaxOffset <==> offset > SnapThreshold
  {
    if offset > SnapThreshold then MaxOffset else 0
  }

  /** Snapping a resting card leaves it where it is. */
  lemma SnapIdempotent(offset: int)
    ensures Snap(Snap(offset)) == Snap(offset)
  {
  }

  /** One whole gesture: a swipe left by more than 60 pixels opens the card,
      anything less (or a swipe to the right) shuts it. */
  lemma GestureOutcome(startX: int, endX: int)
    ensures Snap(Clamp(startX - endX, 0, MaxOffset)) == (if startX - endX > SnapThreshold then MaxOffset else 0)
  {
  }

  class Card {
    var offset: int
    var isDragging: bool
    var startX: int
    /** How often the card has asked for its medication to be deleted. */
    var deleteRequests: nat

    ghost predicate Valid()
      reads this
    {
      0 <= offset <= MaxOffset
    }

    constructor ()
      ensures Valid()
      ensures offset == 0 && !isDragging && startX == 0 && deleteRequests == 0
    {
      offset := 0;
      isDragging := false;
      startX := 0;
      deleteRequests := 0;
    }

    /** The red delete area shows while the card is slid at all, and is
        hidden whenever it rests shut. */
    function DeleteAreaVisible(): (b: bool)
      reads this
      ensures 0 <= offset ==> (b <==> offset != 0)
    {
      offset > 0
    }

    /** A finger touches down at `x`. */
    method TouchStart(x: int)
      requires Valid()
      modifies this
      ensures Valid()
      ensures startX == x && isDragging
      ensures offset == old(offset) && deleteRequests == old(deleteRequests)
    {
      startX := x;
      isDragging := true;
    }

    /** The finger moves to `x`: ignored unless a touch is in progress;
        otherwise the card follows a leftward move, up to 100 pixels. */
    method TouchMove(x: int)
      requires Valid()
      modifies this
      ensures Valid()
      ensures old(isDragging) ==> offset == Clamp(startX - x, 0, MaxOffset)
      ensures !old(isDragging) ==> offset == old(offset)
      ensures isDragging == old(isDragging) && startX == old(startX) && deleteRequests == old(deleteRequests)
    {
      if !isDragging {
        return;
      }
      var diff := startX - x;
      offset := Clamp(diff, 0, MaxOffset);
    }

    /** The finger lifts: the card snaps open or shut. */
    method TouchEnd()
      requires Valid()
      modifies this
      ensures Valid()
      ensures !isDragging
      ensures offset == Snap(old(offset))
      ensures offset == 0 || offset == MaxOffset
      ensures startX == old(startX) && deleteRequests == old(deleteRequests)
    {
      isDragging := false;
      if offset > SnapThreshold {
        offset := MaxOffset;
      } else {
        offset := 0;
      }
    }

    /** The delete button: the card shuts and asks once for the deletion. */
    method Delete()
      requires Valid()
      modifies this
      ensures Valid()
      ensures offset == 0 && deleteRequests == old(deleteRequests) + 1
      ensures isDragging == old(isDragging) && startX == old(startX)
    {
      offset := 0;
      deleteRequests := deleteRequests + 1;
    }
  }

  /** A full swipe on a fresh card: touch at `x0`, move to `x1`, lift. The card
      ends open exactly when the swipe went more than 60 pixels left, and no
      deletion is asked for until the button is pressed. */
  method SwipeGesture(x0: int, x1: int) returns (open: bool, requests: nat)
    ensures open <==> x0 - x1 > SnapThreshold
    ensures requests == 0
  {
    var card := new Card();
    card.TouchStart(x0);
    card.TouchMove(x1);
    card.TouchEnd();
    GestureOutcome(x0, x1);
    open := card.offset == MaxOffset;
    requests := card.deleteRequests;
  }
}
